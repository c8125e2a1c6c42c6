/**
 * The contact-message log of app.py: a JSON file holding the list of every
 * message received, read in full and rewritten in full on each submission,
 * and the contact endpoint that builds a record from the request and saves it.
 *
 * The file is abstract state: absent, a list of records, or content that does
 * not parse as one. The clock reading and whether the file can be opened for
 * writing are parameters.
 */
module Messages {
  import opened Wrappers
  import opened Timestamp

  /** One stored message: the four request fields (null when absent) and the timestamp. */
  datatype Message = Message(
    name: Option<string>,
    email: Option<string>,
    subject: Option<string>,
    message: Option<string>,
    timestamp: Option<string>)

  /** What an existing backing file holds. */
  datatype FileContent = Records(messages: seq<Message>) | Unparseable

  datatype Error =
    | CorruptStore   // the file exists but is not a JSON list of records
    | WriteFailed    // the file could not be opened for writing
    | BadPayload     // the request body is not a JSON object

  datatype Outcome = Pass | Fail(error: Error)

  /** The records an existing or absent file contributes to a load. */
  function Existing(file: Option<FileContent>): seq<Message>
    requires file != Some(Unparseable)
  {
    if file.None? then [] else file.value.messages
  }

  /** `message_data['timestamp'] = now.strftime(...)`: sets the timestamp, whatever it held, and nothing else. */
  function Stamp(rec: Message, now: DateTime): (r: Message)
    requires now.Fits()
    ensures r.timestamp == Some(Format(now))
    ensures r.name == rec.name && r.email == rec.email
    ensures r.subject == rec.subject && r.message == rec.message
  {
    rec.(timestamp := Some(Format(now)))
  }

  /** The stamp is a well-formed timestamp that reads back as the clock reading. */
  lemma StampTimestamp(rec: Message, now: DateTime)
    requires now.Valid()
    ensures WellFormed(Stamp(rec, now).timestamp.value)
    ensures Parse(Stamp(rec, now).timestamp.value) == Some(now)
  {
    FormatWellFormed(now);
    ParseFormat(now);
  }

  /** The list `save_message` writes: the loaded records and then the stamped one. */
  function Appended(ms: seq<Message>, rec: Message, now: DateTime): (r: seq<Message>)
    requires now.Fits()
    ensures |r| == |ms| + 1
    ensures r[..|ms|] == ms
    ensures r[|ms|] == Stamp(rec, now)
  {
    ms + [Stamp(rec, now)]
  }

  /** Two saves in a row leave both records at the end, in the order they were saved. */
  lemma AppendedTwice(ms: seq<Message>, r1: Message, t1: DateTime, r2: Message, t2: DateTime)
    requires t1.Fits() && t2.Fits()
    ensures Appended(Appended(ms, r1, t1), r2, t2) == ms + [Stamp(r1, t1), Stamp(r2, t2)]
  {
  }

  /** The backing file `messages.json`. */
  class MessageStore {
    var file: Option<FileContent>

    constructor (initial: Option<FileContent>)
      ensures file == initial
    {
      file := initial;
    }

    /** `load_messages`: the records in the file, none when it is absent, an error when it does not parse. */
    method LoadMessages() returns (r: Result<seq<Message>, Error>)
      ensures file.None? ==> r == Ok([])
      ensures file.Some? && file.value.Records? ==> r == Ok(file.value.messages)
      ensures file == Some(Unparseable) ==> r == Err(CorruptStore)
    {
      match file
      case None => r := Ok([]);
      case Some(Records(ms)) => r := Ok(ms);
      case Some(Unparseable) => r := Err(CorruptStore);
    }

    /**
     * `save_message`: load every record, stamp the new one with `now`, append
     * it and rewrite the whole file. A failed load, or a file that cannot be
     * opened for writing, leaves the file as it was.
     */
    method SaveMessage(rec: Message, now: DateTime, writeOk: bool) returns (res: Outcome)
      requires now.Valid()
      modifies this
      ensures old(file) == Some(Unparseable) ==> res == Fail(CorruptStore)
      ensures old(file) != Some(Unparseable) && !writeOk ==> res == Fail(WriteFailed)
      ensures res.Fail? ==> file == old(file)
      ensures res.Pass? <==> old(file) != Some(Unparseable) && writeOk
      ensures res.Pass? ==> file == Some(Records(Appended(Existing(old(file)), rec, now)))
    {
      var loaded := LoadMessages();
      match loaded
      case Err(e) =>
        res := Fail(e);
      case Ok(ms) =>
        var all := ms + [Stamp(rec, now)];
        if writeOk {
          file := Some(Records(all));
          res := Pass;
        } else {
          res := Fail(WriteFailed);
        }
    }
  }

  /** The body of a contact request: a JSON object, or anything on which `get_json` or `data.get` raises. */
  datatype Payload = Object(fields: map<string, string>) | NotAnObject

  function Field(fields: map<string, string>, key: string): Option<string>
  {
    if key in fields then Some(fields[key]) else None
  }

  /** The record `submit_contact` builds: the four keys, each from the request or null. */
  function BuildRecord(fields: map<string, string>): (r: Message)
    ensures "name" in fields <==> r.name.Some?
    ensures "email" in fields <==> r.email.Some?
    ensures "subject" in fields <==> r.subject.Some?
    ensures "message" in fields <==> r.message.Some?
    ensures r.name.Some? ==> r.name.value == fields["name"]
    ensures r.email.Some? ==> r.email.value == fields["email"]
    ensures r.subject.Some? ==> r.subject.value == fields["subject"]
    ensures r.message.Some? ==> r.message.value == fields["message"]
    ensures r.timestamp.None?
  {
    Message(Field(fields, "name"), Field(fields, "email"), Field(fields, "subject"),
            Field(fields, "message"), None)
  }

  /** What the contact endpoint answers. */
  datatype Reply = Sent | Failed(cause: Error)
  {
    function Success(): bool
    {
      Sent?
    }

    function Status(): nat
    {
      if Sent? then 200 else 500
    }
  }

  /**
   * `submit_contact`: build the record from the request and save it; any
   * exception on the way becomes a failure reply with status 500.
   */
  method SubmitContact(store: MessageStore, payload: Payload, now: DateTime, writeOk: bool)
    returns (reply: Reply)
    requires now.Valid()
    modifies store
    ensures reply.Success() <==> payload.Object? && old(store.file) != Some(Unparseable) && writeOk
    ensures reply.Status() == if reply.Success() then 200 else 500
    ensures payload.NotAnObject? ==> reply == Failed(BadPayload)
    ensures payload.Object? && old(store.file) == Some(Unparseable) ==> reply == Failed(CorruptStore)
    ensures payload.Object? && old(store.file) != Some(Unparseable) && !writeOk ==> reply == Failed(WriteFailed)
    ensures !reply.Success() ==> store.file == old(store.file)
    ensures reply.Success() ==>
      store.file == Some(Records(Appended(Existing(old(store.file)), BuildRecord(payload.fields), now)))
  {
    match payload
    case NotAnObject =>
      reply := Failed(BadPayload);
    case Object(fields) =>
      var rec := BuildRecord(fields);
      var res := store.SaveMessage(rec, now, writeOk);
      match res
      case Pass => reply := Sent;
      case Fail(e) => reply := Failed(e);
  }

  /**
   * A first message to an absent file: the file then holds that one record,
   * stamped; a second message is stored after it.
   */
  method AdaScenario(now: DateTime, later: DateTime)
    requires now.Valid() && later.Valid()
  {
    var store := new MessageStore(None);
    var body := map["name" := "Ada", "email" := "a@x.com", "subject" := "Hi", "message" := "Hello"];
    var reply := SubmitContact(store, Object(body), now, true);
    assert reply == Sent;
    var loaded := store.LoadMessages();
    assert loaded.Ok? && |loaded.value| == 1;
    var m := loaded.value[0];
    assert m.name == Some("Ada") && m.email == Some("a@x.com");
    assert m.subject == Some("Hi") && m.message == Some("Hello");
    StampTimestamp(BuildRecord(body), now);
    assert m.timestamp.Some? && |m.timestamp.value| == 19;

    var second := SubmitContact(store, Object(map["name" := "Bob"]), later, true);
    assert second == Sent;
    loaded := store.LoadMessages();
    assert loaded.Ok? && |loaded.value| == 2 && loaded.value[0] == m;
    assert loaded.value[1].name == Some("Bob") && loaded.value[1].email == None;
    assert loaded.value[1].timestamp == Some(Format(later));
  }
}
