/**
 The order in which a kind's devices are listed, in terms of their names: numbers first and by value, then the other
 names as text, with ties in order of arrival.
 */
module ListingOrder {
  import opened Basics
  import opened Decimal
  import opened InstanceOrder
  import opened CerboReducer

  predicate IsNumber(i: Instance) { 1 <= |i| <= 4300 && forall n :: 0 <= n < |i| ==> '0' <= i[n] <= '9' }

  /** Some character is ASCII and no digit. */
  ghost predicate IsWord(i: Instance) { exists n :: 0 <= n < |i| && i[n] as int < 128 && !('0' <= i[n] <= '9') }

  ghost predicate DiffersAt(s: string, t: string, n: nat) {
    n <= |s| && n <= |t| && s[..n] == t[..n] && ((n == |s| && n < |t|) || (n < |s| && n < |t| && s[n] < t[n]))
  }

  /** As text: the same up to a character that is smaller, or up to the end of the first. */
  ghost predicate TextBefore(s: string, t: string) {
    exists n: nat :: DiffersAt(s, t, n)
  }

  /** The device is stored, and either says nothing of its connection or that it has one. */
  ghost predicate IsConnected(g: Group, i: Instance) {
    i in g.leaves && ("Connected" in g.leaves[i] ==> Number(g.leaves[i]["Connected"]) == Some(1.0))
  }

  ghost predicate StandsBefore(l: Listing, a: Instance, b: Instance) {
    exists m, n :: 0 <= m < n < |l| && l[m].0 == a && l[n].0 == b
  }

  lemma {:induction false} TextExactly(s: string, t: string)
    ensures TextAtMost(s, t) && s != t <==> TextBefore(s, t)
  {
    if s == "" || t == "" || s[0] != t[0] {
      DiffersAtOnce(s, t);
    } else {
      assert s == [s[0]] + s[1..] && t == [t[0]] + t[1..];
      TextExactly(s[1..], t[1..]);
      if n: nat :| DiffersAt(s[1..], t[1..], n) {
        assert s[..n + 1] == [s[0]] + s[1..][..n] && t[..n + 1] == [t[0]] + t[1..][..n];
        assert DiffersAt(s, t, n + 1);
      }
      if n: nat :| DiffersAt(s, t, n) {
        assert s[1..][..n - 1] == s[..n][1..] && t[1..][..n - 1] == t[..n][1..];
        assert DiffersAt(s[1..], t[1..], n - 1);
      }
    }
  }

  lemma DiffersAtOnce(s: string, t: string)
    requires s == "" || t == "" || s[0] != t[0]
    ensures TextBefore(s, t) <==> t != "" && (s == "" || s[0] < t[0])
  {
    if t != "" && (s == "" || s[0] < t[0]) {
      assert DiffersAt(s, t, 0);
    }
    if n: nat :| DiffersAt(s, t, n) {
      if n > 0 {
        SameFirst(s, t, n);
      }
    }
  }

  lemma SameFirst(s: string, t: string, n: nat)
    requires 0 < n <= |s| && n <= |t| && s[..n] == t[..n]
    ensures s[0] == t[0]
  {
    assert s[..n][0] == t[..n][0];
  }

  /** A list has each connected device once, with its leaves, and no other. */
  lemma ListedExactly(rank: Ranking, d: Devices, kind: Kind)
    requires DevicesOk(d)
    ensures kind in ListsOf(rank, d)
    ensures var l, g := ListsOf(rank, d)[kind], GroupOf(d, kind);
      && (forall n :: 0 <= n < |l| ==> IsConnected(g, l[n].0) && l[n].1 == g.leaves[l[n].0])
      && (forall i :: IsConnected(g, i) ==> exists n :: 0 <= n < |l| && l[n].0 == i)
      && (forall m, n :: 0 <= m < n < |l| ==> l[m].0 != l[n].0)
  {
    hide Sort, AtMost, KeyOf, Precedes, Ordered;
    var g := GroupOf(d, kind);
    SortStable(rank, g.order);
    KeptIs(Sort(rank, g.order), ConnectedOf(g));
    var l := ListsOf(rank, d)[kind];
    var names := Kept(Sort(rank, g.order), ConnectedOf(g));
    forall i | IsConnected(g, i) ensures exists n :: 0 <= n < |l| && l[n].0 == i {
      assert i in names;
      var n :| 0 <= n < |names| && names[n] == i;
      assert l[n].0 == i;
    }
    forall n | 0 <= n < |l| ensures IsConnected(g, l[n].0) && l[n].1 == g.leaves[l[n].0] {
      assert l[n].0 == names[n] && names[n] in names;
    }
  }

  lemma StandsByKeys(rank: Ranking, d: Devices, kind: Kind, a: Instance, b: Instance)
    requires DevicesOk(d) && kind in ListsOf(rank, d)
    requires IsConnected(GroupOf(d, kind), a) && IsConnected(GroupOf(d, kind), b) && a != b
    ensures StandsBefore(ListsOf(rank, d)[kind], a, b) <==>
      AtMost(KeyOf(rank, a), KeyOf(rank, b)) && (KeyOf(rank, a) == KeyOf(rank, b) ==> Precedes(GroupOf(d, kind).order, a, b))
  {
    hide Sort, Precedes, StandsBefore, AtMost, KeyOf, Kept, ListsOf, DevicesOk;
    var g := GroupOf(d, kind);
    OrderDistinct(d, kind);
    SortStable(rank, g.order);
    StandsAsNamed(rank, d, kind, a, b);
    KeptOrder(Sort(rank, g.order), ConnectedOf(g), a, b);
  }

  lemma OrderDistinct(d: Devices, kind: Kind)
    requires DevicesOk(d)
    ensures var g := GroupOf(d, kind); Distinct(g.order) && forall i :: i in g.order <==> i in g.leaves
  {
  }

  lemma {:induction false} KeptOrder(s: seq<Instance>, keep: set<Instance>, a: Instance, b: Instance)
    requires Distinct(s) && a in keep && b in keep
    ensures Precedes(Kept(s, keep), a, b) <==> Precedes(s, a, b)
  {
    hide Precedes, Kept;
    KeptIs(s, keep);
  }

  lemma StandsAsNamed(rank: Ranking, d: Devices, kind: Kind, a: Instance, b: Instance)
    requires kind in ListsOf(rank, d)
    ensures var g := GroupOf(d, kind);
      StandsBefore(ListsOf(rank, d)[kind], a, b) <==> Precedes(Kept(Sort(rank, g.order), ConnectedOf(g)), a, b)
  {
    hide Sort, Kept, ConnectedOf;
    var g := GroupOf(d, kind);
    var l, names := ListsOf(rank, d)[kind], Kept(Sort(rank, g.order), ConnectedOf(g));
    assert |l| == |names| && forall n :: 0 <= n < |l| ==> l[n].0 == names[n];
  }

  /** Two connected devices: numbers by value, before every name with another ASCII character, and these as text. */
  lemma {:induction false} ListedInOrder(rank: Ranking, d: Devices, kind: Kind, a: Instance, b: Instance)
    requires RankingOk(rank) && DevicesOk(d) && kind in ListsOf(rank, d)
    requires IsConnected(GroupOf(d, kind), a) && IsConnected(GroupOf(d, kind), b) && a != b
    ensures var l := ListsOf(rank, d)[kind];
      && (IsNumber(a) && IsNumber(b) ==>
            (StandsBefore(l, a, b) <==>
               Decimal.Value(a) < Decimal.Value(b) || (Decimal.Value(a) == Decimal.Value(b) && Precedes(GroupOf(d, kind).order, a, b))))
      && (IsNumber(a) && IsWord(b) ==> StandsBefore(l, a, b) && !StandsBefore(l, b, a))
      && (IsWord(a) && IsWord(b) ==> (StandsBefore(l, a, b) <==> TextBefore(a, b)))
  {
    hide StandsBefore, TextBefore, TextAtMost, Precedes, IsConnected, IsNumber, IsWord, KeyOf, ListsOf, DevicesOk, RankingOk;
    StandsByKeys(rank, d, kind, a, b);
    StandsByKeys(rank, d, kind, b, a);
    KeyExactly(rank, a);
    KeyExactly(rank, b);
    TextExactly(a, b);
  }

  lemma {:induction false} KeyExactly(rank: Ranking, i: Instance)
    requires RankingOk(rank)
    ensures IsNumber(i) ==> KeyOf(rank, i) == Digits(Decimal.Value(i))
    ensures IsWord(i) ==> KeyOf(rank, i) == Name(i)
  {
    hide RankingOk;
    RankExactly(rank, i);
    if IsWord(i) {
      var n :| 0 <= n < |i| && i[n] as int < 128 && !('0' <= i[n] <= '9');
      assert Ascii(i[n]) && !IsDigit(i[n]);
    }
  }

  lemma {:induction false} RankExactly(rank: Ranking, i: Instance)
    requires RankingOk(rank)
    ensures HasNonDigit(i) ==> rank(i) == Some(Name(i))
    ensures i != "" && AllDigits(i) && |i| <= 4300 ==> rank(i) == Some(Digits(Decimal.Value(i)))
  {
    hide HasNonDigit;
  }
}
