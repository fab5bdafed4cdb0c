/**
 The coordination store as a pure map from keys to values, and the
 unconditional, last-writer-wins puts the scheduler issues against it.
 */
module Store {

  import opened Records

  /** A stored value: a record the scheduler published, or opaque text another agent wrote. */
  datatype StoreValue = Json(record: Record) | Raw(text: string)

  type Store = map<string, StoreValue>

  datatype Put = Put(key: string, value: StoreValue)

  /** The keys a sequence of puts writes. */
  function Written(puts: seq<Put>): set<string>
  {
    set i | 0 <= i < |puts| :: puts[i].key
  }

  /** The store after performing `puts` in order; each put overwrites unconditionally. */
  function Apply(s: Store, puts: seq<Put>): (r: Store)
    ensures r.Keys == s.Keys + Written(puts)
    ensures forall k :: k in s && k !in Written(puts) ==> r[k] == s[k]
    ensures |puts| > 0 ==> r[puts[|puts| - 1].key] == puts[|puts| - 1].value
    decreases |puts|
  {
    if |puts| == 0 then s
    else
      var rest := puts[1..];
      assert Written(puts) == {puts[0].key} + Written(rest) by {
        forall k | k in Written(puts) ensures k in {puts[0].key} + Written(rest) {
          var i :| 0 <= i < |puts| && puts[i].key == k;
          if i > 0 { assert rest[i - 1] == puts[i]; }
        }
      }
      Apply(s[puts[0].key := puts[0].value], rest)
  }

  /** Two stores that agree outside the written keys agree after the same puts. */
  lemma {:induction false} ApplyForgetsWritten(s: Store, t: Store, puts: seq<Put>)
    requires forall k :: k !in Written(puts) ==> (k in s <==> k in t)
    requires forall k :: k in s && k in t && k !in Written(puts) ==> s[k] == t[k]
    ensures Apply(s, puts) == Apply(t, puts)
    decreases |puts|
  {
    if |puts| > 0 {
      var rest := puts[1..];
      var p := puts[0];
      ApplyForgetsWritten(s[p.key := p.value], t[p.key := p.value], rest);
    }
  }

  /** Publishing the same puts a second time leaves the store as the first time did. */
  lemma PublishIdempotent(s: Store, puts: seq<Put>)
    ensures Apply(Apply(s, puts), puts) == Apply(s, puts)
  {
    ApplyForgetsWritten(Apply(s, puts), s, puts);
  }

}
