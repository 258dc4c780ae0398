/**
 * The entries intake pushes onto `pending:ratings`: the `JSON.stringify`
 * text of the new rating, and what reading its properties back after
 * `JSON.parse` yields.
 */
module PendingCodec {
  import opened Wrappers
  import opened JsonText

  /** The object intake serialises; absent optional fields are `undefined` and left out of the text. */
  datatype PendingEntry = PendingEntry(
    id: string,
    movieId: string,
    rating: int,
    sessionId: Option<string>,
    userId: Option<string>,
    ipAddress: Option<string>,
    userAgent: Option<string>,
    timestamp: int)

  /** A member that `JSON.stringify` writes only when the value is defined. */
  function OptMember(name: string, v: Option<string>): (ms: JsonObject)
    ensures Names(ms) <= {name}
  {
    if v.Some? then [(name, JStr(v.value))] else []
  }

  /** The object's members in the order the object literal lists them. */
  function Members(e: PendingEntry): JsonObject {
    [("id", JStr(e.id)), ("movieId", JStr(e.movieId)), ("rating", JInt(e.rating))]
    + OptMember("sessionId", e.sessionId)
    + OptMember("userId", e.userId)
    + OptMember("ipAddress", e.ipAddress)
    + OptMember("userAgent", e.userAgent)
    + [("timestamp", JInt(e.timestamp))]
  }

  /** The text pushed onto the pending list. */
  function Encode(e: PendingEntry): string {
    EncodeObject(Members(e))
  }

  /** `obj[name]` on a parsed entry, as a string if it is one. */
  function OptText(v: Option<JsonValue>): Option<string> {
    match v
    case Some(JStr(s)) => Some(s)
    case _ => None
  }

  /** Reading a name past a last member with another name. */
  lemma SkipLast(x: JsonObject, m: (string, JsonValue), name: string)
    requires m.0 != name
    ensures Lookup(x + [m], name) == Lookup(x, name)
  {
    assert (x + [m])[..|x + [m]| - 1] == x;
  }

  lemma SkipOpt(x: JsonObject, n: string, v: Option<string>, name: string)
    requires n != name
    ensures Lookup(x + OptMember(n, v), name) == Lookup(x, name)
  {
    if v.Some? {
      SkipLast(x, (n, JStr(v.value)), name);
    } else {
      assert x + OptMember(n, v) == x;
    }
  }

  lemma FindLast(x: JsonObject, name: string, v: JsonValue)
    ensures Lookup(x + [(name, v)], name) == Some(v)
  {
  }

  /** The three leading members. */
  function Head(e: PendingEntry): JsonObject {
    [("id", JStr(e.id)), ("movieId", JStr(e.movieId)), ("rating", JInt(e.rating))]
  }

  lemma HeadLacks(e: PendingEntry, name: string)
    requires name != "id" && name != "movieId" && name != "rating"
    ensures Lookup(Head(e), name).None?
  {
    var h := Head(e);
    assert h[..2] == [("id", JStr(e.id)), ("movieId", JStr(e.movieId))];
    assert h[..2][..1] == [("id", JStr(e.id))];
    assert h[..2][..1][..0] == [];
  }

  lemma ReadHead(e: PendingEntry)
    ensures Lookup(Head(e), "id") == Some(JStr(e.id))
    ensures Lookup(Head(e), "movieId") == Some(JStr(e.movieId))
    ensures Lookup(Head(e), "rating") == Some(JInt(e.rating))
  {
    var h := Head(e);
    assert h[..2] == [("id", JStr(e.id)), ("movieId", JStr(e.movieId))];
    assert h[..2][..1] == [("id", JStr(e.id))];
    assert Lookup(h, "id") == Lookup(h[..2], "id") == Lookup(h[..2][..1], "id");
  }

  function UpToSession(e: PendingEntry): JsonObject {
    Head(e) + OptMember("sessionId", e.sessionId)
  }

  function UpToUser(e: PendingEntry): JsonObject {
    UpToSession(e) + OptMember("userId", e.userId)
  }

  function UpToIp(e: PendingEntry): JsonObject {
    UpToUser(e) + OptMember("ipAddress", e.ipAddress)
  }

  function UpToAgent(e: PendingEntry): JsonObject {
    UpToIp(e) + OptMember("userAgent", e.userAgent)
  }

  lemma PastTimestamp(e: PendingEntry, name: string)
    requires name != "timestamp"
    ensures Lookup(Members(e), name) == Lookup(UpToAgent(e), name)
  {
    assert Members(e) == UpToAgent(e) + [("timestamp", JInt(e.timestamp))];
    SkipLast(UpToAgent(e), ("timestamp", JInt(e.timestamp)), name);
  }

  lemma ReadTimestamp(e: PendingEntry)
    ensures Lookup(Members(e), "timestamp") == Some(JInt(e.timestamp))
  {
    assert Members(e) == UpToAgent(e) + [("timestamp", JInt(e.timestamp))];
  }

  lemma ReadAgent(e: PendingEntry)
    ensures OptText(Lookup(Members(e), "userAgent")) == e.userAgent
  {
    PastTimestamp(e, "userAgent");
    ReadOpt(UpToIp(e), "userAgent", e.userAgent);
    SkipOpt(UpToUser(e), "ipAddress", e.ipAddress, "userAgent");
    SkipOpt(UpToSession(e), "userId", e.userId, "userAgent");
    SkipOpt(Head(e), "sessionId", e.sessionId, "userAgent");
    HeadLacks(e, "userAgent");
  }

  lemma ReadIp(e: PendingEntry)
    ensures OptText(Lookup(Members(e), "ipAddress")) == e.ipAddress
  {
    PastTimestamp(e, "ipAddress");
    SkipOpt(UpToIp(e), "userAgent", e.userAgent, "ipAddress");
    ReadOpt(UpToUser(e), "ipAddress", e.ipAddress);
    SkipOpt(UpToSession(e), "userId", e.userId, "ipAddress");
    SkipOpt(Head(e), "sessionId", e.sessionId, "ipAddress");
    HeadLacks(e, "ipAddress");
  }

  lemma ReadUser(e: PendingEntry)
    ensures OptText(Lookup(Members(e), "userId")) == e.userId
  {
    PastTimestamp(e, "userId");
    SkipOpt(UpToIp(e), "userAgent", e.userAgent, "userId");
    SkipOpt(UpToUser(e), "ipAddress", e.ipAddress, "userId");
    ReadOpt(UpToSession(e), "userId", e.userId);
    SkipOpt(Head(e), "sessionId", e.sessionId, "userId");
    HeadLacks(e, "userId");
  }

  lemma ReadSession(e: PendingEntry)
    ensures OptText(Lookup(Members(e), "sessionId")) == e.sessionId
  {
    PastTimestamp(e, "sessionId");
    SkipOpt(UpToIp(e), "userAgent", e.userAgent, "sessionId");
    SkipOpt(UpToUser(e), "ipAddress", e.ipAddress, "sessionId");
    SkipOpt(UpToSession(e), "userId", e.userId, "sessionId");
    ReadOpt(Head(e), "sessionId", e.sessionId);
    HeadLacks(e, "sessionId");
  }

  /** The head members are read through every optional member. */
  lemma ReadLeading(e: PendingEntry, name: string)
    requires name == "id" || name == "movieId" || name == "rating"
    ensures Lookup(Members(e), name) == Lookup(Head(e), name)
  {
    PastTimestamp(e, name);
    SkipOpt(UpToIp(e), "userAgent", e.userAgent, name);
    SkipOpt(UpToUser(e), "ipAddress", e.ipAddress, name);
    SkipOpt(UpToSession(e), "userId", e.userId, name);
    SkipOpt(Head(e), "sessionId", e.sessionId, name);
  }

  lemma ReadFields(e: PendingEntry)
    ensures Lookup(Members(e), "id") == Some(JStr(e.id))
    ensures Lookup(Members(e), "movieId") == Some(JStr(e.movieId))
    ensures Lookup(Members(e), "rating") == Some(JInt(e.rating))
    ensures OptText(Lookup(Members(e), "sessionId")) == e.sessionId
    ensures OptText(Lookup(Members(e), "userId")) == e.userId
    ensures OptText(Lookup(Members(e), "ipAddress")) == e.ipAddress
    ensures OptText(Lookup(Members(e), "userAgent")) == e.userAgent
    ensures Lookup(Members(e), "timestamp") == Some(JInt(e.timestamp))
  {
    ReadHead(e);
    ReadLeading(e, "id");
    ReadLeading(e, "movieId");
    ReadLeading(e, "rating");
    ReadSession(e);
    ReadUser(e);
    ReadIp(e);
    ReadAgent(e);
    ReadTimestamp(e);
  }

  /** The last optional member reads back as written, or falls through when left out. */
  lemma ReadOpt(x: JsonObject, n: string, v: Option<string>)
    ensures v.Some? ==> Lookup(x + OptMember(n, v), n) == Some(JStr(v.value))
    ensures v.None? ==> Lookup(x + OptMember(n, v), n) == Lookup(x, n)
  {
    if v.None? {
      assert x + OptMember(n, v) == x;
    }
  }

  /**
   * Parsing an entry's text and reading its properties gives back every
   * field; a field that was undefined reads as undefined.
   */
  lemma DecodeEncode(e: PendingEntry)
    ensures ParseObject(Encode(e)) == Some(Members(e))
    ensures Lookup(Members(e), "id") == Some(JStr(e.id))
    ensures Lookup(Members(e), "movieId") == Some(JStr(e.movieId))
    ensures Lookup(Members(e), "rating") == Some(JInt(e.rating))
    ensures OptText(Lookup(Members(e), "sessionId")) == e.sessionId
    ensures OptText(Lookup(Members(e), "userId")) == e.userId
    ensures OptText(Lookup(Members(e), "ipAddress")) == e.ipAddress
    ensures OptText(Lookup(Members(e), "userAgent")) == e.userAgent
    ensures Lookup(Members(e), "timestamp") == Some(JInt(e.timestamp))
  {
    ParseEncodeObject(Members(e));
    ReadFields(e);
  }
}
