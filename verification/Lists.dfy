/** Lists, such as those of addresses or file offsets, where zero stands for the end. */
module Lists {

  /** Entry i, or zero beyond the ends. */
  function At(l: seq<nat>, i: int): nat {
    if 0 <= i < |l| then l[i] else 0
  }

  ghost predicate Distinct<T>(l: seq<T>) {
    forall i, j :: 0 <= i < j < |l| ==> l[i] != l[j]
  }

  /** The list without entry i. */
  function Without<T>(l: seq<T>, i: nat): seq<T> {
    if i < |l| then l[..i] + l[i + 1..] else l
  }

  lemma {:induction false} WithoutMembers<T>(l: seq<T>, i: nat)
    requires i < |l| && Distinct(l)
    ensures forall o :: o in Without(l, i) <==> o in l && o != l[i]
  {
    var m := Without(l, i);
    forall o | o in l && o != l[i] ensures o in m {
      var k :| 0 <= k < |l| && l[k] == o;
      assert m[if k < i then k else k - 1] == o;
    }
    forall o | o in m ensures o in l && o != l[i] {
      var k :| 0 <= k < |m| && m[k] == o;
      assert o == l[if k < i then k else k + 1];
    }
  }
}
