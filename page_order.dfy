/** Ordering of rendered pages. The OCR strategies list the rendered page files with
    Python's `sorted()`, which orders `str` values lexicographically by code point;
    `pdftoppm` zero-pads page numbers, so this order is page order. The parallel
    strategy then walks its result dict in ascending page-id order and both strategies
    glue the page texts together with `b''.join`. */
module PageOrder {
  import opened Shell

  /** Python's `a < b` on `str`: the first differing code point decides, and a
      proper prefix comes first. */
  predicate Below(a: string, b: string)
    decreases |a|
  {
    if |a| == 0 then |b| > 0
    else if |b| == 0 then false
    else if a[0] == b[0] then Below(a[1..], b[1..])
    else a[0] < b[0]
  }

  lemma {:induction false} BelowIrreflexive(a: string)
    ensures !Below(a, a)
    decreases |a|
  {
    if |a| > 0 {
      BelowIrreflexive(a[1..]);
    }
  }

  lemma {:induction false} BelowTransitive(a: string, b: string, c: string)
    ensures Below(a, b) && Below(b, c) ==> Below(a, c)
    decreases |a|
  {
    if |a| > 0 && |b| > 0 && |c| > 0 && a[0] == b[0] && b[0] == c[0] {
      BelowTransitive(a[1..], b[1..], c[1..]);
    }
  }

  lemma {:induction false} BelowAsymmetric(a: string, b: string)
    ensures !(Below(a, b) && Below(b, a))
  {
    BelowTransitive(a, b, a);
    BelowIrreflexive(a);
  }

  lemma {:induction false} BelowTotal(a: string, b: string)
    ensures a == b || Below(a, b) || Below(b, a)
    decreases |a|
  {
    if |a| > 0 && |b| > 0 && a[0] == b[0] {
      assert a == [a[0]] + a[1..] && b == [b[0]] + b[1..];
      BelowTotal(a[1..], b[1..]);
    }
  }

  /** No name is followed by one that sorts before it. */
  ghost predicate Ascending(s: seq<string>)
  {
    forall i, j :: 0 <= i < j < |s| ==> !Below(s[j], s[i])
  }

  /** Insert `x` in front of the first element it does not sort after. */
  function Insert(x: string, s: seq<string>): (r: seq<string>)
    ensures multiset(r) == multiset(s) + multiset{x}
  {
    if s == [] then [x]
    else if Below(s[0], x) then
      assert s == [s[0]] + s[1..];
      [s[0]] + Insert(x, s[1..])
    else [x] + s
  }

  /** The model of `sorted(names)`: insertion sort under `Below`. */
  function Sort(names: seq<string>): (r: seq<string>)
    ensures |r| == |names|
    ensures multiset(r) == multiset(names)
  {
    if names == [] then []
    else
      assert names == [names[0]] + names[1..];
      var r := Insert(names[0], Sort(names[1..]));
      assert |r| == |multiset(r)| == |multiset(names)| == |names|;
      r
  }

  lemma {:induction false} InsertAscending(x: string, s: seq<string>)
    requires Ascending(s)
    ensures Ascending(Insert(x, s))
  {
    if s != [] {
      if Below(s[0], x) {
        var tail := s[1..];
        assert Ascending(tail);
        InsertAscending(x, tail);
        var r := Insert(x, s);
        assert r == [s[0]] + Insert(x, tail);
        forall j | 0 < j < |r|
          ensures !Below(r[j], s[0])
        {
          assert r[j] in multiset(Insert(x, tail));
          assert r[j] == x || r[j] in multiset(tail);
          BelowAsymmetric(x, s[0]);
          if r[j] != x {
            var k :| 0 <= k < |tail| && tail[k] == r[j];
            assert s[k + 1] == r[j];
          }
        }
      } else {
        forall j | 0 <= j < |s|
          ensures !Below(s[j], x)
        {
          BelowTotal(x, s[0]);
          BelowTransitive(s[j], x, s[0]);
        }
      }
    }
  }

  /** `sorted()` as modelled returns the names it was given, in ascending order. */
  lemma {:induction false} SortAscending(names: seq<string>)
    ensures Ascending(Sort(names))
    ensures multiset(Sort(names)) == multiset(names)
  {
    if names != [] {
      SortAscending(names[1..]);
      InsertAscending(names[0], Sort(names[1..]));
    }
  }

  /** Two ascending arrangements of the same names are the same sequence, so the
      insertion sort above returns exactly what any correct `sorted()` returns. */
  lemma {:induction false} AscendingUnique(s: seq<string>, t: seq<string>)
    requires Ascending(s) && Ascending(t)
    requires multiset(s) == multiset(t)
    ensures s == t
  {
    if s == [] || t == [] {
      assert |multiset(s)| == |s| && |multiset(t)| == |t|;
    } else {
      HeadsEqual(s, t);
      TailsSameNames(s, t);
      AscendingTail(s);
      AscendingTail(t);
      AscendingUnique(s[1..], t[1..]);
      assert s == [s[0]] + s[1..] && t == [t[0]] + t[1..];
    }
  }

  lemma HeadsEqual(s: seq<string>, t: seq<string>)
    requires Ascending(s) && Ascending(t)
    requires multiset(s) == multiset(t)
    requires s != [] && t != []
    ensures s[0] == t[0]
  {
    assert s[0] in multiset(t);
    var k :| 0 <= k < |t| && t[k] == s[0];
    assert t[0] in multiset(s);
    var m :| 0 <= m < |s| && s[m] == t[0];
    BelowTotal(s[0], t[0]);
  }

  lemma TailsSameNames(s: seq<string>, t: seq<string>)
    requires multiset(s) == multiset(t)
    requires s != [] && t != [] && s[0] == t[0]
    ensures multiset(s[1..]) == multiset(t[1..])
  {
    assert s == [s[0]] + s[1..] && t == [t[0]] + t[1..];
    assert multiset(s) == multiset{s[0]} + multiset(s[1..]);
    assert multiset(t) == multiset{t[0]} + multiset(t[1..]);
    assert multiset(s[1..]) == multiset(s) - multiset{s[0]};
    assert multiset(t[1..]) == multiset(t) - multiset{t[0]};
  }

  lemma AscendingTail(s: seq<string>)
    requires Ascending(s) && s != []
    ensures Ascending(s[1..])
  {
  }

  /** `b''.join(parts)` */
  function Concat(parts: seq<Bytes>): (r: Bytes)
    ensures parts == [] ==> r == []
  {
    if parts == [] then [] else Concat(parts[..|parts| - 1]) + parts[|parts| - 1]
  }

  lemma {:induction false} ConcatSplit(parts: seq<Bytes>, k: nat)
    requires k <= |parts|
    ensures Concat(parts) == Concat(parts[..k]) + Concat(parts[k..])
    decreases |parts|
  {
    if k < |parts| {
      var init := parts[..|parts| - 1];
      ConcatSplit(init, k);
      assert init[..k] == parts[..k];
      assert parts[k..][..|parts[k..]| - 1] == init[k..];
    } else {
      assert parts[..k] == parts;
    }
  }

  /** Page `k`'s text sits in the joined bytes right after the texts of the pages
      before it, and nothing is dropped or reordered. */
  lemma ConcatPlacesPart(parts: seq<Bytes>, k: nat)
    requires k < |parts|
    ensures |Concat(parts[..k])| + |parts[k]| <= |Concat(parts)|
    ensures Concat(parts)[|Concat(parts[..k])|..|Concat(parts[..k])| + |parts[k]|] == parts[k]
  {
    ConcatSplit(parts, k + 1);
    assert parts[..k + 1][..k] == parts[..k];
  }

  /** The page ids 1, 2, ..., n. */
  function PageIds(n: nat): (ids: seq<nat>)
    ensures |ids| == n
    ensures forall i :: 0 <= i < n ==> ids[i] == i + 1
  {
    seq(n, i requires 0 <= i < n => i + 1)
  }

  /** A non-empty finite set of ids has a least element. */
  lemma {:induction false} Minimum(keys: set<nat>) returns (least: nat)
    requires keys != {}
    ensures least in keys && forall x :: x in keys ==> least <= x
    decreases |keys|
  {
    var y :| y in keys;
    var rest := keys - {y};
    if rest == {} {
      least := y;
    } else {
      var m := Minimum(rest);
      least := if y < m then y else m;
    }
    forall x | x in keys
      ensures least <= x
    {
      if x != y {
        assert x in rest;
      }
    }
  }

  lemma MinimumExists(keys: set<nat>)
    requires keys != {}
    ensures exists m :: m in keys && forall x :: x in keys ==> m <= x
  {
    var least := Minimum(keys);
  }

  /** The smallest of a non-empty set of ids. */
  function Least(keys: set<nat>): (m: nat)
    requires keys != {}
    ensures m in keys && forall x :: x in keys ==> m <= x
  {
    MinimumExists(keys);
    var m :| m in keys && forall x :: x in keys ==> m <= x;
    m
  }

  /** `sorted()` of a dict's integer keys: every key once, strictly ascending. */
  function SortedIds(keys: set<nat>): (ks: seq<nat>)
    ensures forall i, j :: 0 <= i < j < |ks| ==> ks[i] < ks[j]
    ensures forall k :: k in ks <==> k in keys
    decreases keys
  {
    if keys == {} then []
    else
      var m := Least(keys);
      var rest := SortedIds(keys - {m});
      var ks := [m] + rest;
      assert forall i, j :: 0 <= i < j < |ks| ==> ks[i] < ks[j] by {
        assert forall k :: k in rest ==> m < k;
        assert forall j :: 0 < j < |ks| ==> ks[j] == rest[j - 1];
      }
      assert forall k :: k in ks <==> k in keys by {
        assert forall k :: k in ks <==> k == m || k in rest;
      }
      ks
  }

  /** Once every job is done the keys of the parallel strategy's `pages` dict are
      exactly 1..n; `sorted(pages.items())` walks them strictly ascending, and the
      only such walk is 1, 2, ..., n. */
  lemma AscendingIdsAreRange(ks: seq<nat>, n: nat)
    requires forall i, j :: 0 <= i < j < |ks| ==> ks[i] < ks[j]
    requires forall k :: k in ks <==> 1 <= k <= n
    ensures ks == PageIds(n)
  {
    forall i | 0 <= i < |ks|
      ensures ks[i] == i + 1
    {
      IdAt(ks, n, i);
    }
    if |ks| > 0 {
      assert ks[|ks| - 1] in ks;
    }
    if n > 0 {
      assert n in ks;
    }
  }

  /** The sorted keys of a dict whose keys are exactly 1..n are 1, 2, ..., n. */
  lemma SortedIdsOfRange(keys: set<nat>, n: nat)
    requires forall k :: k in keys <==> 1 <= k <= n
    ensures SortedIds(keys) == PageIds(n)
  {
    AscendingIdsAreRange(SortedIds(keys), n);
  }

  lemma {:induction false} IdAt(ks: seq<nat>, n: nat, i: nat)
    requires forall i, j :: 0 <= i < j < |ks| ==> ks[i] < ks[j]
    requires forall k :: k in ks <==> 1 <= k <= n
    requires i < |ks|
    ensures ks[i] == i + 1
  {
    assert ks[i] in ks;
    if i == 0 {
      assert 1 in ks;
      var j :| 0 <= j < |ks| && ks[j] == 1;
      assert ks[0] <= ks[j];
    } else {
      IdAt(ks, n, i - 1);
      assert i + 1 in ks;
      var j :| 0 <= j < |ks| && ks[j] == i + 1;
      assert ks[i - 1] < ks[i];
    }
  }
}
