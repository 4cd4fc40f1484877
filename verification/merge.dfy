/** Merging disjoint tables held under different names into one. */
module Merge {

  type Parts<V> = map<string, map<string, V>>

  ghost predicate Disjoint<V>(p: Parts<V>) {
    forall a, b, k :: a in p && b in p && k in p[a] && k in p[b] ==> a == b
  }

  function Keys<V>(p: Parts<V>): set<string> {
    set a, k | a in p && k in p[a] :: k
  }

  ghost function Merged<V>(p: Parts<V>): (t: map<string, V>)
    ensures t.Keys == Keys(p)
  {
    map k | k in Keys(p) :: var a :| a in p && k in p[a]; p[a][k]
  }

  lemma MergedAt<V>(p: Parts<V>, a: string, k: string)
    requires Disjoint(p) && a in p && k in p[a]
    ensures k in Merged(p) && Merged(p)[k] == p[a][k]
  {
  }

  lemma MergedFrom<V>(p: Parts<V>, k: string) returns (a: string)
    requires k in Merged(p)
    ensures a in p && k in p[a]
  {
    a :| a in p && k in p[a];
  }

  /** Two families agree once merged if each key's entry in one is the other's. */
  lemma MergedIs<V>(p: Parts<V>, t: map<string, V>)
    requires Disjoint(p)
    requires forall a, k :: a in p && k in p[a] ==> k in t && t[k] == p[a][k]
    requires forall k :: k in t ==> k in Keys(p)
    ensures Merged(p) == t
  {
    forall k | k in t ensures k in Merged(p) && Merged(p)[k] == t[k] {
      var a := MergedFrom(p, k);
      MergedAt(p, a, k);
    }
  }

  /** Writing one part replaces its own entries and no others. */
  lemma MergedPut<V>(p: Parts<V>, n: string, part: map<string, V>)
    requires Disjoint(p) && forall b, k :: b in p && b != n && k in p[b] ==> k !in part
    ensures Disjoint(p[n := part])
    ensures Merged(p[n := part]) == (Merged(p) - (if n in p then p[n].Keys else {})) + part
  {
    var q, t := p[n := part], (Merged(p) - (if n in p then p[n].Keys else {})) + part;
    forall a, k | a in q && k in q[a] ensures k in t && t[k] == q[a][k] {
      if a != n {
        MergedAt(p, a, k);
      }
    }
    forall k | k in t ensures k in Keys(q) {
      if k in part {
        assert n in q && k in q[n];
      } else {
        var a := MergedFrom(p, k);
        assert a in q && k in q[a];
      }
    }
    MergedIs(q, t);
  }

  /** Taking keys out of every part, and dropping parts this empties, takes them out of the whole. */
  lemma MergedMinus<V>(p: Parts<V>, keys: set<string>, q: Parts<V>)
    requires Disjoint(p) && q.Keys <= p.Keys
    requires forall a :: a in q ==> q[a] == p[a] - keys
    requires forall a, k :: a in p && a !in q && k in p[a] ==> k in keys
    ensures Disjoint(q) && Merged(q) == Merged(p) - keys
  {
    var t := Merged(p) - keys;
    forall a, k | a in q && k in q[a] ensures k in t && t[k] == q[a][k] {
      MergedAt(p, a, k);
    }
    forall k | k in t ensures k in Keys(q) {
      var a := MergedFrom(p, k);
      assert a in q && k in q[a];
    }
    MergedIs(q, t);
  }
}
