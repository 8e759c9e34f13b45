/** What several modules share: a value that may be missing, and facts about maps and sequences. */
module Wrappers {
  datatype Option<+T> = None | Some(value: T)

  lemma NewValue<K, V>(m: map<K, V>, k: K, v: V)
    requires k !in m
    ensures m[k := v].Values == m.Values + {v}
  {
    var m' := m[k := v];
    forall w ensures w in m'.Values <==> w in m.Values || w == v {
      if w in m.Values {
        var j :| j in m && m[j] == w;
        assert m'[j] == w;
      }
      if w == v {
        assert m'[k] == v;
      }
    }
  }

  // Erasing item i, the first of the rest, while iterating; or keeping it.
  lemma ErasedOne<T>(items: seq<T>, i: nat, kept: seq<T>, rest: seq<T>)
    requires items == kept + rest && i == |kept| && rest != []
    ensures items[i] == rest[0] && items[..i] + items[i + 1..] == kept + rest[1..]
    ensures items == (kept + [rest[0]]) + rest[1..]
  {
  }
}
