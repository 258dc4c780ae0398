/** The cache keys the rating pipeline reads and writes. */
module RatingKeys {
  import opened Text

  /** `movie:<movieId>:<field>`. */
  function CounterKey(movieId: string, field: string): string {
    "movie:" + movieId + ":" + field
  }

  function SumKey(movieId: string): string {
    CounterKey(movieId, "rating_sum")
  }

  function CountKey(movieId: string): string {
    CounterKey(movieId, "rating_count")
  }

  /** The bucket counter `rating_<stars>`. */
  function BucketField(stars: int): string {
    "rating_" + IntToString(stars)
  }

  function BucketKey(movieId: string, stars: int): string {
    CounterKey(movieId, BucketField(stars))
  }

  function RecentKey(movieId: string): string {
    CounterKey(movieId, "recent_count")
  }

  /** `rating:<id>`, the hash holding one rating. */
  function RatingHashKey(id: string): string {
    "rating:" + id
  }

  /** The list of ratings waiting for the database. */
  const PendingKey: string := "pending:ratings"

  /** `dup:<movieId>:<who>`. */
  function DupKey(movieId: string, who: string): string {
    "dup:" + movieId + ":" + who
  }

  /** The counter keys of one movie differ exactly when their fields do. */
  lemma CounterKeyInjective(movieId: string, f: string, g: string)
    ensures CounterKey(movieId, f) == CounterKey(movieId, g) <==> f == g
  {
    var p := "movie:" + movieId + ":";
    if CounterKey(movieId, f) == CounterKey(movieId, g) {
      assert p + f == p + g;
      assert f == (p + f)[|p|..];
    }
  }

  /** The kinds of key never collide: they start with different letters. */
  lemma KeyKindsDistinct(m1: string, f: string, id: string, m2: string, who: string)
    ensures CounterKey(m1, f) != RatingHashKey(id)
    ensures CounterKey(m1, f) != DupKey(m2, who)
    ensures CounterKey(m1, f) != PendingKey
    ensures RatingHashKey(id) != DupKey(m2, who)
    ensures RatingHashKey(id) != PendingKey
    ensures DupKey(m2, who) != PendingKey
  {
    assert CounterKey(m1, f)[0] == 'm';
    assert RatingHashKey(id)[0] == 'r';
    assert DupKey(m2, who)[0] == 'd';
    assert PendingKey[0] == 'p';
  }

  /** The bucket fields of different star values differ, and none is another counter's field. */
  lemma BucketFieldDistinct(a: int, b: int)
    ensures BucketField(a) == BucketField(b) <==> a == b
    ensures BucketField(a) != "rating_sum" && BucketField(a) != "rating_count" && BucketField(a) != "recent_count"
  {
    if BucketField(a) == BucketField(b) {
      BucketFieldInjective(a, b);
    }
    BucketFieldNoOther(a);
  }

  lemma BucketFieldInjective(a: int, b: int)
    requires BucketField(a) == BucketField(b)
    ensures a == b
  {
    var p := "rating_";
    assert IntToString(a) == BucketField(a)[|p|..];
    assert IntToString(b) == BucketField(b)[|p|..];
    IntToStringInjective(a, b);
  }

  /** A bucket field has a sign or a digit where the other counters' fields have letters. */
  lemma BucketFieldNoOther(a: int)
    ensures BucketField(a) != "rating_sum" && BucketField(a) != "rating_count" && BucketField(a) != "recent_count"
  {
    var s := IntToString(a);
    assert BucketField(a)[7] == s[0];
    assert s[0] == '-' || IsDigit(s[0]);
    assert "rating_sum"[7] == 's' && "rating_count"[7] == 'c';
    assert "recent_count"[0] == 'r' && "recent_count"[1] == 'e';
  }

}
