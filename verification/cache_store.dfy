/**
 * The Redis cache as the rating pipeline sees it through its cache
 * repository: one keyspace of strings, hashes and lists, commands that
 * report errors exactly where Redis would (wrong type, text that is not an
 * integer), repository methods that swallow every error and return a
 * fallback, and pipelines whose commands run one after the other without
 * rolling back.
 */
module CacheStore {
  import opened Wrappers
  import opened Text
  import opened JsonText
  import opened JsNumber

  datatype Value = Str(s: string) | Hash(fields: map<string, string>) | List(items: seq<string>)

  /** The keyspace; `ttl` holds the seconds left for keys written with SETEX. */
  datatype Cache = Cache(data: map<string, Value>, ttl: map<string, nat>)

  const Empty: Cache := Cache(map[], map[])

  /** The default lifetime of the repository's `set`. */
  const DefaultTtlSeconds: nat := 300

  predicate NonEmpty(v: Value) {
    match v
    case Str(_) => true
    case Hash(f) => |f| > 0
    case List(xs) => |xs| > 0
  }

  /** Redis keeps no empty hash or list, and only live keys carry a lifetime. */
  predicate Valid(c: Cache) {
    && c.ttl.Keys <= c.data.Keys
    && forall k :: k in c.data ==> NonEmpty(c.data[k])
  }

  /** Text Redis accepts as an integer: the whole string is a canonical decimal integer ("-0" is not). */
  function IntegerText(s: string): Option<int> {
    match ReadInt(s)
    case Some(p) => if p.1 == "" && s != "-0" then Some(p.0) else None
    case None => None
  }

  lemma IntegerTextRoundTrip(n: int)
    ensures IntegerText(IntToString(n)) == Some(n)
  {
    ReadIntRoundTrip(n, "");
    assert IntToString(n) + "" == IntToString(n);
  }

  /** The integer a key holds for INCR-like commands; a missing key counts as 0. */
  function CounterAt(c: Cache, key: string): Option<int> {
    if key !in c.data then Some(0)
    else match c.data[key]
      case Str(s) => IntegerText(s)
      case _ => None
  }

  /** The commands the pipeline uses. */
  datatype Op =
    | SetEx(key: string, seconds: nat, value: string)
    | HSet(key: string, fields: map<string, string>)
    | LPush(key: string, value: string)
    | IncrBy(key: string, amount: int)
    | IncrByFloat(key: string, amount: int)
    | LRem(key: string, count: int, value: string)
    | Del(key: string)

  /** A command's reply: a status, an integer, or an error reply. */
  datatype Reply = Done | Number(n: int) | Err

  /** Removes the first `n` occurrences of `v`, keeping everything else in order. */
  function RemoveFirst(xs: seq<string>, v: string, n: nat): (ys: seq<string>)
    ensures |ys| <= |xs|
    ensures multiset(ys)[v] == multiset(xs)[v] - Min(n, multiset(xs)[v])
    ensures forall w :: w != v ==> multiset(ys)[w] == multiset(xs)[w]
    decreases |xs|
  {
    if |xs| == 0 then []
    else
      assert xs == [xs[0]] + xs[1..];
      if n > 0 && xs[0] == v then RemoveFirst(xs[1..], v, n - 1)
      else [xs[0]] + RemoveFirst(xs[1..], v, n)
  }

  function Min(a: nat, b: nat): nat {
    if a <= b then a else b
  }

  function Reverse(xs: seq<string>): (ys: seq<string>)
    ensures |ys| == |xs| && multiset(ys) == multiset(xs)
    decreases |xs|
  {
    if |xs| == 0 then []
    else
      assert xs == xs[..|xs| - 1] + [xs[|xs| - 1]];
      [xs[|xs| - 1]] + Reverse(xs[..|xs| - 1])
  }

  /** LREM: a positive count removes from the head, a negative one from the tail, zero removes all. */
  function ListRemove(xs: seq<string>, count: int, v: string): (ys: seq<string>)
    ensures multiset(ys)[v] == multiset(xs)[v] - Min(if count == 0 then |xs| else if count > 0 then count else -count, multiset(xs)[v])
    ensures forall w :: w != v ==> multiset(ys)[w] == multiset(xs)[w]
  {
    if count > 0 then RemoveFirst(xs, v, count)
    else if count == 0 then RemoveFirst(xs, v, |xs|)
    else Reverse(RemoveFirst(Reverse(xs), v, -count))
  }

  function Drop(c: Cache, key: string): Cache {
    Cache(c.data - {key}, c.ttl - {key})
  }

  function Put(c: Cache, key: string, v: Value): Cache {
    Cache(c.data[key := v], c.ttl)
  }

  /** INCRBY and INCRBYFLOAT on a key holding an integer (whole increments keep it one). */
  function AddTo(c: Cache, key: string, amount: int): (r: (Cache, Reply)) {
    match CounterAt(c, key)
    case Some(n) => (Put(c, key, Str(IntToString(n + amount))), Number(n + amount))
    case None => (c, Err)
  }

  /** LREM: a missing key is an empty list; a list left empty is deleted. */
  function RemoveItems(c: Cache, key: string, count: int, value: string): (r: (Cache, Reply)) {
    if key !in c.data then (c, Number(0))
    else
      match c.data[key]
      case List(xs) =>
        var ys := ListRemove(xs, count, value);
        var gone := multiset(xs)[value] - multiset(ys)[value];
        if |ys| == 0 then (Drop(c, key), Number(gone)) else (Put(c, key, List(ys)), Number(gone))
      case _ => (c, Err)
  }

  /** What one command does to the keyspace, as Redis executes it. */
  function Apply(c: Cache, op: Op): (r: (Cache, Reply))
    ensures r.1.Err? ==> r.0 == c
    ensures forall k :: k != op.key ==> (k in r.0.data <==> k in c.data)
    ensures forall k :: k != op.key && k in c.data ==> r.0.data[k] == c.data[k]
  {
    match op
    case SetEx(key, seconds, value) =>
      if seconds == 0 then (c, Err)
      else (Cache(c.data[key := Str(value)], c.ttl[key := seconds]), Done)
    case HSet(key, fields) =>
      if |fields| == 0 then (c, Err)
      else if key !in c.data then (Put(c, key, Hash(fields)), Number(|fields|))
      else
        (match c.data[key]
         case Hash(prior) => (Put(c, key, Hash(prior + fields)), Number(|fields.Keys - prior.Keys|))
         case _ => (c, Err))
    case LPush(key, value) =>
      if key !in c.data then (Put(c, key, List([value])), Number(1))
      else
        (match c.data[key]
         case List(xs) => (Put(c, key, List([value] + xs)), Number(|xs| + 1))
         case _ => (c, Err))
    case IncrBy(key, amount) => AddTo(c, key, amount)
    case IncrByFloat(key, amount) => AddTo(c, key, amount)
    case LRem(key, count, value) => RemoveItems(c, key, count, value)
    case Del(key) =>
      if key in c.data then (Drop(c, key), Number(1)) else (c, Number(0))
  }

  /** Every command keeps the keyspace free of empty hashes and lists. */
  lemma ApplyKeepsValid(c: Cache, op: Op)
    requires Valid(c)
    ensures Valid(Apply(c, op).0)
  {
    match op
    case LRem(key, count, value) => LRemKeepsValid(c, key, count, value);
    case HSet(key, fields) => HSetKeepsValid(c, key, fields);
    case _ =>
  }

  lemma LRemKeepsValid(c: Cache, key: string, count: int, value: string)
    requires Valid(c)
    ensures Valid(Apply(c, LRem(key, count, value)).0)
  {
    if key in c.data && c.data[key].List? {
      var ys := ListRemove(c.data[key].items, count, value);
      if |ys| > 0 {
        assert NonEmpty(List(ys));
      }
    }
  }

  lemma HSetKeepsValid(c: Cache, key: string, fields: map<string, string>)
    requires Valid(c)
    ensures Valid(Apply(c, HSet(key, fields)).0)
  {
    if |fields| > 0 && key in c.data && c.data[key].Hash? {
      var prior := c.data[key].fields;
      assert fields.Keys <= (prior + fields).Keys;
    }
  }

  /** SETEX replaces whatever the key held and sets its lifetime. */
  lemma ApplySetEx(c: Cache, key: string, seconds: nat, value: string)
    requires seconds > 0
    ensures Apply(c, SetEx(key, seconds, value)) == (Cache(c.data[key := Str(value)], c.ttl[key := seconds]), Done)
  {
  }

  /** HSET on a missing key creates the hash. */
  lemma ApplyHSetNew(c: Cache, key: string, fields: map<string, string>)
    requires key !in c.data && |fields| > 0
    ensures Apply(c, HSet(key, fields)).0 == Cache(c.data[key := Hash(fields)], c.ttl)
  {
  }

  /** LPUSH on a list (or a missing key) puts the value at the head. */
  lemma ApplyLPush(c: Cache, key: string, value: string)
    requires key !in c.data || c.data[key].List?
    ensures Apply(c, LPush(key, value)).0 == Cache(c.data[key := List([value] + ListAt(c, key))], c.ttl)
  {
    if key !in c.data {
      assert [value] + ListAt(c, key) == [value];
    }
  }

  /** The cache with `key` holding the text of the integer `n`. */
  function WithCounter(c: Cache, key: string, n: int): Cache {
    Put(c, key, Str(IntToString(n)))
  }

  /** INCRBY and INCRBYFLOAT on a key holding `n` leave it holding `n + amount`. */
  lemma AddAt(c: Cache, key: string, amount: int, n: int)
    requires CounterAt(c, key) == Some(n)
    ensures Apply(c, IncrBy(key, amount)).0 == WithCounter(c, key, n + amount)
    ensures Apply(c, IncrByFloat(key, amount)).0 == WithCounter(c, key, n + amount)
  {
  }

  /** The counter written reads back as its integer. */
  lemma WithCounterReads(c: Cache, key: string, n: int)
    ensures CounterAt(WithCounter(c, key, n), key) == Some(n)
  {
    IntegerTextRoundTrip(n);
  }

  /** Three queued commands run one after the other. */
  lemma RunAllThree(c: Cache, ops: seq<Op>)
    requires |ops| == 3
    ensures RunAll(c, ops).0 == Apply(Apply(Apply(c, ops[0]).0, ops[1]).0, ops[2]).0
  {
    var c1 := Apply(c, ops[0]).0;
    var c2 := Apply(c1, ops[1]).0;
    assert ops[1..][0] == ops[1] && ops[1..][1..] == ops[2..];
    assert ops[2..][0] == ops[2] && ops[2..][1..] == [];
    assert RunAll(c2, ops[2..]).0 == Apply(c2, ops[2]).0;
    assert RunAll(c1, ops[1..]).0 == RunAll(c2, ops[2..]).0;
  }

  /** Writing one key leaves the counter of every other key as it was. */
  lemma CounterAtOther(c: Cache, key: string, v: Value, other: string)
    requires other != key
    ensures CounterAt(Put(c, key, v), other) == CounterAt(c, other)
  {
  }

  /** Three increments of three different counters holding `n1`, `n2` and `n3`. */
  lemma AddThree(c: Cache, k1: string, a1: int, n1: int, k2: string, a2: int, n2: int, k3: string, a3: int, n3: int)
    requires k1 != k2 && k1 != k3 && k2 != k3
    requires CounterAt(c, k1) == Some(n1) && CounterAt(c, k2) == Some(n2) && CounterAt(c, k3) == Some(n3)
    ensures RunAll(c, [IncrByFloat(k1, a1), IncrBy(k2, a2), IncrBy(k3, a3)]).0
      == WithCounter(WithCounter(WithCounter(c, k1, n1 + a1), k2, n2 + a2), k3, n3 + a3)
  {
    var ops := [IncrByFloat(k1, a1), IncrBy(k2, a2), IncrBy(k3, a3)];
    RunAllThree(c, ops);
    AddAt(c, k1, a1, n1);
    var c1 := WithCounter(c, k1, n1 + a1);
    CounterAtOther(c, k1, Str(IntToString(n1 + a1)), k2);
    CounterAtOther(c, k1, Str(IntToString(n1 + a1)), k3);
    AddAt(c1, k2, a2, n2);
    var c2 := WithCounter(c1, k2, n2 + a2);
    CounterAtOther(c1, k2, Str(IntToString(n2 + a2)), k3);
    AddAt(c2, k3, a3, n3);
  }

  /** Three different counters written one after the other each read back as written. */
  lemma ReadThree(c: Cache, k1: string, m1: int, k2: string, m2: int, k3: string, m3: int)
    requires k1 != k2 && k1 != k3 && k2 != k3
    ensures var d := WithCounter(WithCounter(WithCounter(c, k1, m1), k2, m2), k3, m3);
      CounterAt(d, k1) == Some(m1) && CounterAt(d, k2) == Some(m2) && CounterAt(d, k3) == Some(m3)
  {
    var c1 := WithCounter(c, k1, m1);
    var c2 := WithCounter(c1, k2, m2);
    WithCounterReads(c, k1, m1);
    CounterAtOther(c1, k2, Str(IntToString(m2)), k1);
    CounterAtOther(c2, k3, Str(IntToString(m3)), k1);
    WithCounterReads(c1, k2, m2);
    CounterAtOther(c2, k3, Str(IntToString(m3)), k2);
    WithCounterReads(c2, k3, m3);
  }

  lemma RunAllCons(c: Cache, op: Op, rest: seq<Op>)
    ensures RunAll(c, [op] + rest).0 == RunAll(Apply(c, op).0, rest).0
  {
    assert ([op] + rest)[0] == op && ([op] + rest)[1..] == rest;
  }

  // ---------------------------------------------------------------------
  // Pipelines
  // ---------------------------------------------------------------------

  /** Runs queued commands in order; an error reply does not stop or undo the others. */
  function RunAll(c: Cache, ops: seq<Op>): (r: (Cache, seq<Reply>))
    ensures |r.1| == |ops|
    decreases |ops|
  {
    if |ops| == 0 then (c, [])
    else
      var first := Apply(c, ops[0]);
      var rest := RunAll(first.0, ops[1..]);
      (rest.0, [first.1] + rest.1)
  }

  /**
   * `exec`: the first `sent` commands reach Redis before the connection is
   * lost; when all of them do, the replies come back, otherwise `exec`
   * rejects (None) and whatever was applied stays applied.
   */
  function Exec(c: Cache, ops: seq<Op>, sent: nat): (r: (Cache, Option<seq<Reply>>))
    ensures r.1.Some? <==> sent >= |ops|
    ensures r.1.Some? ==> |r.1.value| == |ops|
  {
    if sent >= |ops| then
      var run := RunAll(c, ops);
      (run.0, Some(run.1))
    else
      (RunAll(c, ops[..sent]).0, None)
  }

  /** `results.some(([error]) => error !== null)`. */
  predicate AnyError(replies: seq<Reply>) {
    exists i :: 0 <= i < |replies| && replies[i].Err?
  }

  /** Running two batches of commands one after the other is running them together. */
  lemma {:induction false} RunAllAppend(c: Cache, a: seq<Op>, b: seq<Op>)
    ensures RunAll(c, a + b).0 == RunAll(RunAll(c, a).0, b).0
    ensures RunAll(c, a + b).1 == RunAll(c, a).1 + RunAll(RunAll(c, a).0, b).1
    decreases |a|
  {
    if |a| == 0 {
      assert a + b == b;
    } else {
      var f := Apply(c, a[0]);
      assert (a + b)[0] == a[0];
      assert (a + b)[1..] == a[1..] + b;
      RunAllAppend(f.0, a[1..], b);
      var whole := RunAll(f.0, a[1..] + b);
      var front := RunAll(f.0, a[1..]);
      assert RunAll(c, a + b) == (whole.0, [f.1] + whole.1);
      assert RunAll(c, a) == (front.0, [f.1] + front.1);
      ConsAppend(f.1, front.1, RunAll(front.0, b).1);
    }
  }

  /** Putting one element in front of a concatenation. */
  lemma ConsAppend<T>(x: T, p: seq<T>, q: seq<T>)
    ensures [x] + (p + q) == [x] + p + q
  {
  }

  /** Pipelines keep the keyspace valid, whether or not `exec` rejects. */
  lemma {:induction false} RunAllKeepsValid(c: Cache, ops: seq<Op>)
    requires Valid(c)
    ensures Valid(RunAll(c, ops).0)
    decreases |ops|
  {
    if |ops| > 0 {
      ApplyKeepsValid(c, ops[0]);
      RunAllKeepsValid(Apply(c, ops[0]).0, ops[1..]);
    }
  }

  // ---------------------------------------------------------------------
  // Repository methods: every Redis error becomes a fallback value
  // ---------------------------------------------------------------------

  /** The text of a string key; None when missing, not a string, or Redis is unreachable. */
  function GetText(c: Cache, key: string, up: bool): (r: Option<string>)
    ensures r.Some? <==> up && key in c.data && c.data[key].Str?
    ensures r.Some? ==> r.value == c.data[key].s
  {
    if up && key in c.data && c.data[key].Str? then Some(c.data[key].s) else None
  }

  /** `JSON.parse` of a whole text holding one value; None when it throws. */
  function ParseValue(s: string): Option<JsonValue> {
    match ReadValue(s)
    case Some(p) => if p.1 == "" then Some(p.0) else None
    case None => None
  }

  /** A value's JSON text parses back to the value. */
  lemma ParseValueRoundTrip(v: JsonValue)
    ensures ParseValue(EncodeValue(v)) == Some(v)
  {
    match v
    case JStr(s) =>
      QuoteRoundTrip(s, "");
      assert Quote(s) + "" == Quote(s);
    case JInt(n) =>
      ReadIntRoundTrip(n, "");
      assert IntToString(n) + "" == IntToString(n);
      assert IntToString(n)[0] == '-' || IsDigit(IntToString(n)[0]);
  }

  /**
   * `get`: the JSON-parsed value of a string key. Null (None) when Redis is
   * unreachable, the key is missing or holds no string, the text is empty,
   * or the text is not JSON.
   */
  function Get(c: Cache, key: string, up: bool): (r: Option<JsonValue>)
    ensures GetText(c, key, up).None? || GetText(c, key, up) == Some("") ==> r.None?
    ensures r.Some? ==> ParseValue(GetText(c, key, up).value) == r
  {
    match GetText(c, key, up)
    case None => None
    case Some(s) => if s == "" then None else ParseValue(s)
  }

  /** `parseInt(value || '0') || 0` applied to what `get` returned. */
  function CountOf(v: Option<JsonValue>): int {
    match v
    case None => 0
    case Some(JInt(n)) => n
    case Some(JStr(s)) =>
      match ParseInt(s)
      case Fin(x) => x.Floor
      case NaN => 0
  }

  /** `parseFloat(value || '0') || 0` applied to what `get` returned. */
  function SumOf(v: Option<JsonValue>): real {
    match v
    case None => 0.0
    case Some(JInt(n)) => n as real
    case Some(JStr(s)) =>
      match ParseFloat(s)
      case Fin(x) => x
      case NaN => 0.0
  }

  /**
   * A counter read back through `get` and `parseInt`/`parseFloat` is the
   * integer the key holds; a missing key, a key of another type and an
   * unreachable Redis all read as 0.
   */
  lemma ReadCounter(c: Cache, key: string, up: bool)
    ensures up && CounterAt(c, key).Some? ==>
      CountOf(Get(c, key, up)) == CounterAt(c, key).value
      && SumOf(Get(c, key, up)) == CounterAt(c, key).value as real
    ensures !up || key !in c.data || !c.data[key].Str? ==>
      CountOf(Get(c, key, up)) == 0 && SumOf(Get(c, key, up)) == 0.0
  {
    if up && key in c.data && c.data[key].Str? && CounterAt(c, key).Some? {
      var s := c.data[key].s;
      var n := CounterAt(c, key).value;
      assert s == IntToString(n) by {
        var p := ReadInt(s).value;
        assert p.1 == "";
        IntegerTextCanonical(s);
      }
      ParseValueRoundTrip(JInt(n));
    }
  }

  /** Integer text is exactly what `IntToString` renders. */
  lemma IntegerTextCanonical(s: string)
    requires IntegerText(s).Some?
    ensures s == IntToString(IntegerText(s).value)
  {
    var neg := |s| > 0 && s[0] == '-';
    var u := if neg then s[1..] else s;
    var k := DigitPrefixLen(u);
    assert k == |u| && u[..k] == u;
    DigitsCanonical(u);
    var m := DigitsValue(u);
    if neg {
      assert s == "-" + u;
    }
  }

  /** A digit string without a leading zero is the rendering of its value. */
  lemma {:induction false} DigitsCanonical(u: string)
    requires |u| >= 1 && AllDigits(u) && (u[0] == '0' ==> |u| == 1)
    ensures NatToString(DigitsValue(u)) == u
    decreases |u|
  {
    if |u| == 1 {
      assert u[..0] == "";
    } else {
      var front := u[..|u| - 1];
      assert front[0] == u[0];
      DigitsCanonical(front);
      var m := DigitsValue(u);
      var d := DigitValue(u[|u| - 1]);
      assert m == DigitsValue(front) * 10 + d;
      DigitsNonZero(front);
      assert m >= 10;
      assert m / 10 == DigitsValue(front) && m % 10 == d;
      assert DigitChar(d) == u[|u| - 1];
      assert u == front + [u[|u| - 1]];
    }
  }

  /** A digit string of two or more digits without a leading zero has a non-zero value. */
  lemma {:induction false} DigitsNonZero(u: string)
    requires |u| >= 1 && AllDigits(u) && u[0] != '0'
    ensures DigitsValue(u) >= 1
    decreases |u|
  {
    if |u| > 1 {
      var front := u[..|u| - 1];
      assert front[0] == u[0];
      DigitsNonZero(front);
    } else {
      assert u[..0] == "";
    }
  }

  /** `set`: SETEX of the JSON text of `value`; nothing happens on failure. */
  function Set(c: Cache, key: string, value: JsonValue, ttlSeconds: nat, up: bool): (r: Cache)
    ensures up && ttlSeconds > 0 ==> Exists(r, key, up) && GetText(r, key, up) == Some(EncodeValue(value))
    ensures up && ttlSeconds > 0 ==> key in r.ttl && r.ttl[key] == ttlSeconds
    ensures !up || ttlSeconds == 0 ==> r == c
  {
    if up then Apply(c, SetEx(key, ttlSeconds, EncodeValue(value))).0 else c
  }

  /** What `set` stored, `get` returns. */
  lemma GetAfterSet(c: Cache, key: string, value: JsonValue, ttlSeconds: nat)
    requires ttlSeconds > 0
    ensures Get(Set(c, key, value, ttlSeconds, true), key, true) == Some(value)
  {
    ParseValueRoundTrip(value);
    assert EncodeValue(value) != "" by {
      match value
      case JStr(s) => assert EncodeValue(value)[0] == '"';
      case JInt(n) =>
    }
  }

  /** `exists`. */
  function Exists(c: Cache, key: string, up: bool): (r: bool)
    ensures r <==> up && key in c.data
  {
    up && key in c.data
  }

  /** `delete`. */
  function Delete(c: Cache, key: string, up: bool): (r: Cache)
    ensures up ==> !Exists(r, key, up)
    ensures !up ==> r == c
  {
    if up then Apply(c, Del(key)).0 else c
  }

  /** `increment`: the new value, or 0 when Redis fails or the key holds no integer. */
  function Increment(c: Cache, key: string, amount: int, up: bool): (r: (Cache, int))
    ensures up && CounterAt(c, key).Some? ==>
      r.1 == CounterAt(c, key).value + amount && CounterAt(r.0, key) == Some(r.1)
    ensures !up || CounterAt(c, key).None? ==> r == (c, 0)
  {
    if !up then (c, 0)
    else
      var a := Apply(c, IncrBy(key, amount));
      IntegerTextRoundTrip(CounterAt(c, key).GetOr(0) + amount);
      (a.0, if a.1.Number? then a.1.n else 0)
  }

  /** `hset` of one field; a value that is not a string is stored as its JSON text. */
  function HSetField(c: Cache, key: string, field: string, value: JsonValue, up: bool): (r: Cache)
    ensures up && (key !in c.data || c.data[key].Hash?) ==> HGet(r, key, field, up) == Some(Coerce(value))
    ensures !up ==> r == c
  {
    if up then Apply(c, HSet(key, map[field := Coerce(value)])).0 else c
  }

  /** `typeof value === 'string' ? value : JSON.stringify(value)`. */
  function Coerce(value: JsonValue): string {
    match value
    case JStr(s) => s
    case JInt(n) => IntToString(n)
  }

  /** `hget`. */
  function HGet(c: Cache, key: string, field: string, up: bool): (r: Option<string>)
    ensures r.Some? <==> up && key in c.data && c.data[key].Hash? && field in c.data[key].fields
    ensures r.Some? ==> r.value == c.data[key].fields[field]
  {
    if up && key in c.data && c.data[key].Hash? && field in c.data[key].fields then
      Some(c.data[key].fields[field])
    else None
  }

  /** `hgetall`: the fields of a hash; empty when missing, not a hash, or on failure. */
  function HGetAll(c: Cache, key: string, up: bool): (r: map<string, string>)
    ensures forall f :: f in r <==> HGet(c, key, f, up).Some?
    ensures forall f :: f in r ==> Some(r[f]) == HGet(c, key, f, up)
  {
    if up && key in c.data && c.data[key].Hash? then c.data[key].fields else map[]
  }

  /** The items of a list key, empty when the key holds no list. */
  function ListAt(c: Cache, key: string): seq<string> {
    if key in c.data && c.data[key].List? then c.data[key].items else []
  }

  /** `llen`. */
  function LLen(c: Cache, key: string, up: bool): (r: int)
    ensures up ==> r == |ListAt(c, key)|
    ensures !up ==> r == 0
  {
    if up then |ListAt(c, key)| else 0
  }

  /** `lrange` with Redis index rules: negative indices count from the end, `stop` is inclusive. */
  function LRange(c: Cache, key: string, start: int, stop: int, up: bool): (r: seq<string>)
    ensures !up ==> r == []
    ensures up && 0 <= start <= stop ==>
      (var xs := ListAt(c, key); r == if start >= |xs| then [] else xs[start..Min(stop + 1, |xs|)])
  {
    var xs := ListAt(c, key);
    var n := |xs|;
    var s := if start < 0 then (if n + start < 0 then 0 else n + start) else start;
    var e := if stop < 0 then n + stop else (if stop >= n then n - 1 else stop);
    if !up || s > e || s >= n then [] else xs[s..e + 1]
  }

  /** `lpush`: the new length, or 0 on failure. */
  function ListPush(c: Cache, key: string, value: string, up: bool): (r: (Cache, int))
    ensures up && (key !in c.data || c.data[key].List?) ==>
      ListAt(r.0, key) == [value] + ListAt(c, key) && r.1 == |ListAt(r.0, key)|
    ensures !up ==> r == (c, 0)
  {
    if !up then (c, 0)
    else
      var a := Apply(c, LPush(key, value));
      (a.0, if a.1.Number? then a.1.n else 0)
  }

  /** `lrem`: how many items were removed, or 0 on failure. */
  function ListRemoveCmd(c: Cache, key: string, count: int, value: string, up: bool): (r: (Cache, int))
    ensures up && key in c.data && c.data[key].List? && count > 0 ==>
      r.1 == Min(count, multiset(ListAt(c, key))[value])
      && multiset(ListAt(r.0, key)) == multiset(ListAt(c, key)) - multiset(SeqOf(value, r.1))
    ensures !up ==> r == (c, 0)
  {
    if !up then (c, 0)
    else
      var a := RemoveItems(c, key, count, value);
      if key in c.data && c.data[key].List? && count > 0 then
        LRemEffect(c, key, count, value);
        (a.0, a.1.n)
      else (a.0, if a.1.Number? then a.1.n else 0)
  }

  /** LREM with a positive count on a list removes the first matches, as many as the count allows. */
  lemma LRemEffect(c: Cache, key: string, count: int, value: string)
    requires key in c.data && c.data[key].List? && count > 0
    ensures var a := RemoveItems(c, key, count, value);
      var n := Min(count, multiset(ListAt(c, key))[value]);
      && a.1 == Number(n)
      && multiset(ListAt(a.0, key)) == multiset(ListAt(c, key)) - multiset(SeqOf(value, n))
  {
    var xs := ListAt(c, key);
    var ys := ListRemove(xs, count, value);
    var n := Min(count, multiset(xs)[value]);
    assert ListAt(RemoveItems(c, key, count, value).0, key) == ys
        && RemoveItems(c, key, count, value).1 == Number(multiset(xs)[value] - multiset(ys)[value]) by {
      RemoveItemsOnList(c, key, count, value);
    }
    assert multiset(ys)[value] == multiset(xs)[value] - n;
    assert multiset(ys) == multiset(xs) - multiset(SeqOf(value, n)) by {
      ListRemoveTakesCopies(xs, count, value);
    }
  }

  /** On a list, LREM leaves the list `ListRemove` computes and replies with the number of copies gone. */
  lemma RemoveItemsOnList(c: Cache, key: string, count: int, value: string)
    requires key in c.data && c.data[key].List?
    ensures var xs := ListAt(c, key);
      var ys := ListRemove(xs, count, value);
      && ListAt(RemoveItems(c, key, count, value).0, key) == ys
      && RemoveItems(c, key, count, value).1 == Number(multiset(xs)[value] - multiset(ys)[value])
  {
    assert c.data[key] == List(ListAt(c, key));
  }

  /** With a positive count, the list left behind lost exactly the copies removed. */
  lemma ListRemoveTakesCopies(xs: seq<string>, count: int, v: string)
    requires count > 0
    ensures multiset(ListRemove(xs, count, v)) == multiset(xs) - multiset(SeqOf(v, Min(count, multiset(xs)[v])))
  {
    MultisetAfterRemoval(xs, ListRemove(xs, count, v), v, Min(count, multiset(xs)[v]));
  }

  /** Removing `n` copies of `v`, and nothing else, is multiset difference with `n` copies of `v`. */
  lemma MultisetAfterRemoval(xs: seq<string>, ys: seq<string>, v: string, n: nat)
    requires multiset(ys)[v] == multiset(xs)[v] - n && n <= multiset(xs)[v]
    requires forall w :: w != v ==> multiset(ys)[w] == multiset(xs)[w]
    ensures multiset(ys) == multiset(xs) - multiset(SeqOf(v, n))
  {
    forall w ensures multiset(ys)[w] == (multiset(xs) - multiset(SeqOf(v, n)))[w] {
    }
  }

  function SeqOf(v: string, n: nat): (s: seq<string>)
    ensures multiset(s)[v] == n
    ensures forall w :: w != v ==> multiset(s)[w] == 0
  {
    if n == 0 then [] else [v] + SeqOf(v, n - 1)
  }

  /** A key's lifetime running out. */
  function Expire(c: Cache, key: string): (r: Cache)
    requires key in c.ttl
    ensures key !in r.data && key !in r.ttl
  {
    Drop(c, key)
  }
}
