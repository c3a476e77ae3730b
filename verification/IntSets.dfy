/** Greatest elements and ascending enumerations of finite integer sets. */
module IntSets {
  lemma SomeMember<T>(s: set<T>) returns (x: T)
    requires |s| > 0
    ensures x in s
  {
    x :| x in s;
  }

  predicate IsGreatest(s: set<int>, m: int) {
    m in s && forall n :: n in s ==> n <= m
  }

  lemma {:induction false} GreatestExists(s: set<int>)
    requires |s| > 0
    ensures exists m :: IsGreatest(s, m)
  {
    var x := SomeMember(s);
    if s - {x} == {} {
      assert forall n :: n in s ==> n == x || n in s - {x};
      assert IsGreatest(s, x);
    } else {
      GreatestExists(s - {x});
      var m :| IsGreatest(s - {x}, m);
      assert forall n :: n in s ==> n == x || n in s - {x};
      assert IsGreatest(s, if m < x then x else m);
    }
  }

  function Greatest(s: set<int>): (m: int)
    requires s != {}
    ensures IsGreatest(s, m)
  {
    GreatestExists(s);
    var m :| IsGreatest(s, m);
    m
  }

  function Ascending(s: set<int>): seq<int>
    decreases |s|
  {
    if s == {} then [] else Ascending(s - {Greatest(s)}) + [Greatest(s)]
  }

  lemma {:induction false} AscendingMembers(s: set<int>, n: int)
    ensures n in Ascending(s) <==> n in s
    decreases |s|
  {
    if s != {} {
      AscendingMembers(s - {Greatest(s)}, n);
    }
  }

  /** Ascending order of 1..n is 1, 2, ..., n. */
  lemma {:induction false} AscendingInterval(s: set<int>, n: nat)
    requires forall i :: i in s <==> 1 <= i <= n
    ensures |Ascending(s)| == n
    ensures forall i :: 0 <= i < n ==> Ascending(s)[i] == i + 1
  {
    if n == 0 {
      if |s| > 0 {
        var x := SomeMember(s);
        assert false;
      }
    } else {
      assert n in s;
      assert Greatest(s) == n;
      AscendingInterval(s - {n}, n - 1);
    }
  }

  lemma {:induction false} AscendingListsOnce(s: set<int>)
    ensures forall n :: n in Ascending(s) <==> n in s
    ensures forall j, k :: 0 <= j < k < |Ascending(s)| ==> Ascending(s)[j] < Ascending(s)[k]
    decreases |s|
  {
    if s != {} {
      var m := Greatest(s);
      var before := Ascending(s - {m});
      AscendingListsOnce(s - {m});
      assert Ascending(s) == before + [m];
      forall j | 0 <= j < |before| ensures before[j] < m {
        assert before[j] in s - {m};
      }
    }
  }

  lemma {:induction false} SetSize(list: seq<int>, s: set<int>)
    requires forall n :: n in s <==> n in list
    requires forall j, k :: 0 <= j < k < |list| ==> list[j] != list[k]
    ensures |s| == |list|
  {
    if list == [] {
      assert forall n :: n in s ==> n in list;
      assert s == {};
    } else {
      var rest := list[..|list| - 1];
      assert list == rest + [list[|list| - 1]];
      SetSize(rest, s - {list[|list| - 1]});
    }
  }

  lemma AtMostOne(s: set<int>, only: int)
    requires s <= {only}
    ensures |s| <= 1
  {
    if only in s {
      assert s == {only};
    } else {
      assert s == {};
    }
  }
}
