/**
  Sorting album entries by their date string, as `sorted(..., key=date)`
  does: ascending in Python's string order and stable, so entries with equal
  date strings keep their relative order.
 */
module Sorting {
  import opened Text
  import opened Playlist

  predicate SortedByDate(s: seq<Album>) {
    forall i, j :: 0 <= i < j < |s| ==> LexLessEq(s[i].date, s[j].date)
  }

  /** The entries whose date string is `k`, in their order in `s`. */
  function WithDate(s: seq<Album>, k: string): seq<Album> {
    if |s| == 0 then []
    else (if s[0].date == k then [s[0]] else []) + WithDate(s[1..], k)
  }

  /** Places `x` before the first entry whose date is not smaller than its own. */
  function Insert(x: Album, s: seq<Album>): seq<Album> {
    if |s| == 0 then [x]
    else if LexLess(s[0].date, x.date) then [s[0]] + Insert(x, s[1..])
    else [x] + s
  }

  /** A stable insertion sort on the date string. */
  function SortByDate(s: seq<Album>): seq<Album> {
    if |s| == 0 then [] else Insert(s[0], SortByDate(s[1..]))
  }

  lemma {:induction false} InsertPermutes(x: Album, s: seq<Album>)
    ensures multiset(Insert(x, s)) == multiset(s) + multiset{x}
  {
    if |s| > 0 && LexLess(s[0].date, x.date) {
      InsertPermutes(x, s[1..]);
      assert s == [s[0]] + s[1..];
    }
  }

  lemma {:induction false} InsertSorted(x: Album, s: seq<Album>)
    requires SortedByDate(s)
    ensures SortedByDate(Insert(x, s))
  {
    if |s| > 0 {
      if LexLess(s[0].date, x.date) {
        InsertSorted(x, s[1..]);
        InsertPermutes(x, s[1..]);
        var r := Insert(x, s[1..]);
        forall j | 0 <= j < |r| ensures LexLessEq(s[0].date, r[j].date) {
          assert r[j] in multiset(r);
          if r[j] == x {
            if LexLess(x.date, s[0].date) {
              LexLessTransitive(s[0].date, x.date, s[0].date);
              LexLessIrreflexive(s[0].date);
            }
          } else {
            assert r[j] in multiset(s[1..]);
          }
        }
      } else {
        forall j | 0 < j < |s| ensures LexLessEq(x.date, s[j].date) {
          LexLessEqTransitive(x.date, s[0].date, s[j].date);
        }
      }
    }
  }

  lemma {:induction false} InsertWithDate(x: Album, s: seq<Album>, k: string)
    ensures WithDate(Insert(x, s), k) == WithDate([x] + s, k)
  {
    if |s| > 0 && LexLess(s[0].date, x.date) {
      InsertWithDate(x, s[1..], k);
      LexLessIrreflexive(x.date);
      var r := Insert(x, s[1..]);
      assert ([s[0]] + r)[1..] == r;
      assert ([x] + s[1..])[1..] == s[1..];
      assert ([x] + s)[1..] == s;
    }
  }

  /** The sorted list holds the same entries, each as often as before. */
  lemma {:induction false} SortByDatePermutes(s: seq<Album>)
    ensures multiset(SortByDate(s)) == multiset(s)
  {
    if |s| > 0 {
      SortByDatePermutes(s[1..]);
      InsertPermutes(s[0], SortByDate(s[1..]));
      assert s == [s[0]] + s[1..];
    }
  }

  /** The sorted list is ascending by date string. */
  lemma {:induction false} SortByDateSorted(s: seq<Album>)
    ensures SortedByDate(SortByDate(s))
  {
    if |s| > 0 {
      SortByDateSorted(s[1..]);
      InsertSorted(s[0], SortByDate(s[1..]));
    }
  }

  /** The sort is stable: for every date, the entries with that date keep their order. */
  lemma {:induction false} SortByDateStable(s: seq<Album>, k: string)
    ensures WithDate(SortByDate(s), k) == WithDate(s, k)
  {
    if |s| > 0 {
      SortByDateStable(s[1..], k);
      InsertWithDate(s[0], SortByDate(s[1..]), k);
      assert ([s[0]] + SortByDate(s[1..]))[1..] == SortByDate(s[1..]);
    }
  }

  lemma {:induction false} WithDateMembers(s: seq<Album>, k: string, a: Album)
    ensures a in WithDate(s, k) <==> a in s && a.date == k
  {
    if |s| > 0 {
      WithDateMembers(s[1..], k, a);
      assert s == [s[0]] + s[1..];
    }
  }

  lemma LexLessEqAntisymmetric(a: string, b: string)
    requires LexLessEq(a, b) && LexLessEq(b, a)
    ensures a == b
  {
    LexLessTotal(a, b);
  }

  /**
    Sorted by date and stable determines the order completely: any list that
    is ascending by date and keeps, for every date, the entries of `s` with
    that date in their order in `s`, is `SortByDate(s)`.
   */
  lemma {:induction false} SortedStableIsUnique(s: seq<Album>, t: seq<Album>)
    requires SortedByDate(t)
    requires forall k :: WithDate(t, k) == WithDate(s, k)
    ensures t == SortByDate(s)
  {
    var u := SortByDate(s);
    SortByDateSorted(s);
    forall k ensures WithDate(u, k) == WithDate(t, k) {
      SortByDateStable(s, k);
    }
    SortedSameGroupsEqual(t, u);
  }

  lemma {:induction false} SortedSameGroupsEqual(t: seq<Album>, u: seq<Album>)
    requires SortedByDate(t) && SortedByDate(u)
    requires forall k :: WithDate(t, k) == WithDate(u, k)
    ensures t == u
    decreases |t| + |u|
  {
    if |t| == 0 && |u| == 0 {
    } else if |t| == 0 || |u| == 0 {
      var a := if |t| > 0 then t[0] else u[0];
      WithDateMembers(t, a.date, a);
      WithDateMembers(u, a.date, a);
    } else {
      var kt, ku := t[0].date, u[0].date;
      WithDateMembers(t, ku, u[0]);
      WithDateMembers(u, ku, u[0]);
      WithDateMembers(t, kt, t[0]);
      WithDateMembers(u, kt, t[0]);
      var i :| 0 <= i < |t| && t[i] == u[0];
      var j :| 0 <= j < |u| && u[j] == t[0];
      assert LexLessEq(kt, ku) by {
        if i > 0 { assert LexLessEq(t[0].date, t[i].date); }
        LexLessIrreflexive(kt);
      }
      assert LexLessEq(ku, kt) by {
        if j > 0 { assert LexLessEq(u[0].date, u[j].date); }
        LexLessIrreflexive(ku);
      }
      LexLessEqAntisymmetric(kt, ku);
      assert t[0] == u[0] by {
        assert WithDate(t, kt)[0] == t[0];
        assert WithDate(u, kt)[0] == u[0];
      }
      forall k ensures WithDate(t[1..], k) == WithDate(u[1..], k) {
        if k == kt {
          assert WithDate(t[1..], k) == WithDate(t, k)[1..];
          assert WithDate(u[1..], k) == WithDate(u, k)[1..];
        } else {
          assert WithDate(t[1..], k) == WithDate(t, k);
          assert WithDate(u[1..], k) == WithDate(u, k);
        }
      }
      SortedSameGroupsEqual(t[1..], u[1..]);
      assert t == [t[0]] + t[1..] && u == [u[0]] + u[1..];
    }
  }
}
