/**
 The order in which the instances of a kind are listed: a stable sort by a sort key, so instances whose keys
 are equal stay in the order they came in. A list is described by which of its elements precede which.
 */
module InstanceOrder {
  import opened Basics
  import opened Decimal

  type Instance = string

  /** A sort key: digits count as a number and come first, anything else is its own text. */
  datatype Rank = Digits(n: nat) | Name(text: string)

  /** The sort key of an instance, absent where computing it raises. */
  type Ranking = Instance -> Option<Rank>

  predicate Ascii(c: char) { c < 128 as char }

  predicate HasNonDigit(i: Instance) { exists n :: 0 <= n < |i| && Ascii(i[n]) && !IsDigit(i[n]) }

  /**
   Digit text is its number and text with any other ASCII character is itself. An instance of digits and
   characters beyond ASCII may go either way or raise, and so may more digits than are converted to a number.
   */
  ghost predicate RankingOk(rank: Ranking) {
    forall i: Instance ::
      && (rank(i).Some? && rank(i).value.Name? ==> rank(i).value.text == i)
      && (HasNonDigit(i) ==> rank(i) == Some(Name(i)))
      && (i != "" && AllDigits(i) && |i| <= 4300 ==> rank(i) == Some(Digits(Value(i))))
  }

  /** The sort keys when whatever is neither digits nor plain text raises. */
  function StrictRank(i: Instance): Option<Rank> {
    if HasNonDigit(i) then Some(Name(i))
    else if i != "" && AllDigits(i) && |i| <= 4300 then Some(Digits(Value(i)))
    else None
  }

  lemma StrictRankOk()
    ensures RankingOk(StrictRank)
  {
    forall i: Instance | AllDigits(i) ensures !HasNonDigit(i) {
    }
  }

  predicate TextAtMost(s: string, t: string) {
    s == "" || (t != "" && (s[0] < t[0] || (s[0] == t[0] && TextAtMost(s[1..], t[1..]))))
  }

  predicate AtMost(a: Rank, b: Rank) {
    match (a, b)
    case (Digits(m), Digits(n)) => m <= n
    case (Digits(_), Name(_)) => true
    case (Name(_), Digits(_)) => false
    case (Name(s), Name(t)) => TextAtMost(s, t)
  }

  lemma {:induction false} TextOrder(s: string, t: string, u: string)
    ensures TextAtMost(s, t) || TextAtMost(t, s)
    ensures TextAtMost(s, t) && TextAtMost(t, s) ==> s == t
    ensures TextAtMost(s, t) && TextAtMost(t, u) ==> TextAtMost(s, u)
    decreases |s| + |t| + |u|
  {
    if s != "" && t != "" {
      TextOrder(s[1..], t[1..], if u == "" then u else u[1..]);
      if s[0] == t[0] && s[1..] == t[1..] {
        assert s == [s[0]] + s[1..] && t == [t[0]] + t[1..];
      }
    }
  }

  lemma RankOrder(a: Rank, b: Rank, c: Rank)
    ensures AtMost(a, b) || AtMost(b, a)
    ensures AtMost(a, b) && AtMost(b, a) ==> a == b
    ensures AtMost(a, b) && AtMost(b, c) ==> AtMost(a, c)
  {
    TextOrder(if a.Name? then a.text else "", if b.Name? then b.text else "", if c.Name? then c.text else "");
  }

  function KeyOf(rank: Ranking, i: Instance): Rank { if rank(i).Some? then rank(i).value else Name(i) }

  // ----- lists without repetition

  predicate Distinct<T(==)>(s: seq<T>) { forall i, j :: 0 <= i < j < |s| ==> s[i] != s[j] }

  ghost predicate Precedes<T>(s: seq<T>, a: T, b: T) { exists i, j :: 0 <= i < j < |s| && s[i] == a && s[j] == b }

  lemma PrecedesCons<T>(head: T, tail: seq<T>, a: T, b: T)
    ensures Precedes([head] + tail, a, b) <==> (a == head && b in tail) || Precedes(tail, a, b)
  {
    var s := [head] + tail;
    if a == head && b in tail {
      var j :| 0 <= j < |tail| && tail[j] == b;
      assert s[0] == a && s[j + 1] == b;
    }
    if Precedes(tail, a, b) {
      var i, j :| 0 <= i < j < |tail| && tail[i] == a && tail[j] == b;
      assert s[i + 1] == a && s[j + 1] == b;
    }
    if Precedes(s, a, b) {
      var i, j :| 0 <= i < j < |s| && s[i] == a && s[j] == b;
      assert s[j] == tail[j - 1] && (i > 0 ==> s[i] == tail[i - 1]);
    }
  }

  lemma DistinctCons<T>(s: seq<T>)
    requires s != []
    ensures s == [s[0]] + s[1..]
    ensures Distinct(s) <==> s[0] !in s[1..] && Distinct(s[1..])
  {
    if Distinct(s) {
      assert forall j :: 0 <= j < |s| - 1 ==> s[1..][j] == s[j + 1];
    }
    if s[0] !in s[1..] && Distinct(s[1..]) {
      forall i, j | 0 <= i < j < |s| ensures s[i] != s[j] {
        assert s[j] == s[1..][j - 1];
        if i > 0 {
          assert s[i] == s[1..][i - 1];
        }
      }
    }
  }

  /** Two lists of the same distinct elements are equal when these precede each other alike. */
  lemma {:induction false} SamePrecedence<T(!new)>(s: seq<T>, t: seq<T>)
    requires Distinct(s) && Distinct(t) && forall x :: x in s <==> x in t
    requires forall a, b :: Precedes(s, a, b) <==> Precedes(t, a, b)
    ensures s == t
  {
    if s == [] {
      assert forall j :: 0 <= j < |t| ==> t[j] in s;
    } else {
      assert s[0] in t;
      DistinctCons(s);
      DistinctCons(t);
      SameHead(s, t);
      forall x ensures x in s[1..] <==> x in t[1..] {
        InTail(s, x);
        InTail(t, x);
      }
      forall a, b ensures Precedes(s[1..], a, b) <==> Precedes(t[1..], a, b) {
        PrecedesIn(s[1..], a, b);
        PrecedesIn(t[1..], a, b);
        PrecedesCons(s[0], s[1..], a, b);
        PrecedesCons(t[0], t[1..], a, b);
      }
      SamePrecedence(s[1..], t[1..]);
    }
  }

  lemma InTail<T>(s: seq<T>, x: T)
    requires s != [] && Distinct(s)
    ensures x in s[1..] <==> x in s && x != s[0]
  {
    DistinctCons(s);
  }

  lemma PrecedesIn<T>(s: seq<T>, a: T, b: T)
    ensures Precedes(s, a, b) ==> a in s && b in s
  {
  }

  lemma SameHead<T(!new)>(s: seq<T>, t: seq<T>)
    requires s != [] && t != [] && Distinct(s) && Distinct(t) && forall x :: x in s <==> x in t
    requires forall a, b :: Precedes(s, a, b) <==> Precedes(t, a, b)
    ensures s[0] == t[0]
  {
    var b := t[0];
    if s[0] != b {
      assert b in s;
      DistinctCons(s);
      DistinctCons(t);
      PrecedesCons(s[0], s[1..], s[0], b);
      PrecedesCons(t[0], t[1..], s[0], b);
      PrecedesIn(t[1..], s[0], b);
    }
  }

  // ----- the stable sort

  function Insert(rank: Ranking, x: Instance, s: seq<Instance>): seq<Instance> {
    if s != [] && !AtMost(KeyOf(rank, x), KeyOf(rank, s[0])) then [s[0]] + Insert(rank, x, s[1..]) else [x] + s
  }

  function Sort(rank: Ranking, s: seq<Instance>): seq<Instance> {
    if s == [] then [] else Insert(rank, s[0], Sort(rank, s[1..]))
  }

  ghost predicate Ordered(rank: Ranking, s: seq<Instance>) {
    forall a, b :: Precedes(s, a, b) ==> AtMost(KeyOf(rank, a), KeyOf(rank, b))
  }

  lemma {:induction false} InsertHas(rank: Ranking, x: Instance, s: seq<Instance>)
    ensures forall y :: y in Insert(rank, x, s) <==> y == x || y in s
  {
    if s != [] && !AtMost(KeyOf(rank, x), KeyOf(rank, s[0])) {
      InsertHas(rank, x, s[1..]);
      assert s == [s[0]] + s[1..];
    }
  }

  lemma {:induction false} InsertDistinct(rank: Ranking, x: Instance, s: seq<Instance>)
    requires Distinct(s) && x !in s
    ensures Distinct(Insert(rank, x, s))
  {
    var r := Insert(rank, x, s);
    DistinctCons(r);
    if s != [] && !AtMost(KeyOf(rank, x), KeyOf(rank, s[0])) {
      DistinctCons(s);
      InsertDistinct(rank, x, s[1..]);
      InsertHas(rank, x, s[1..]);
      assert r[1..] == Insert(rank, x, s[1..]);
    } else {
      assert r[1..] == s;
    }
  }

  /** Where the new element goes: before everything not below it, and nothing else moves. */
  lemma {:induction false} InsertPrecedes(rank: Ranking, x: Instance, s: seq<Instance>, a: Instance, b: Instance)
    requires Distinct(s) && x !in s && Ordered(rank, s)
    ensures Precedes(Insert(rank, x, s), a, b) <==>
      || Precedes(s, a, b)
      || (a == x && b in s && AtMost(KeyOf(rank, x), KeyOf(rank, b)))
      || (b == x && a in s && !AtMost(KeyOf(rank, x), KeyOf(rank, a)))
  {
    if s != [] && !AtMost(KeyOf(rank, x), KeyOf(rank, s[0])) {
      DistinctCons(s);
      OrderedTail(rank, s);
      InsertHas(rank, x, s[1..]);
      InsertPrecedes(rank, x, s[1..], a, b);
      PrecedesCons(s[0], Insert(rank, x, s[1..]), a, b);
      PrecedesCons(s[0], s[1..], a, b);
    } else {
      PrecedesCons(x, s, a, b);
      forall y | y in s ensures AtMost(KeyOf(rank, x), KeyOf(rank, y)) {
        HeadLowest(rank, s, y);
        RankOrder(KeyOf(rank, x), KeyOf(rank, s[0]), KeyOf(rank, y));
      }
    }
  }

  lemma OrderedTail(rank: Ranking, s: seq<Instance>)
    requires s != [] && Ordered(rank, s)
    ensures Ordered(rank, s[1..])
  {
    forall a, b | Precedes(s[1..], a, b) ensures AtMost(KeyOf(rank, a), KeyOf(rank, b)) {
      PrecedesCons(s[0], s[1..], a, b);
      assert s == [s[0]] + s[1..];
    }
  }

  lemma HeadLowest(rank: Ranking, s: seq<Instance>, y: Instance)
    requires Ordered(rank, s) && y in s
    ensures AtMost(KeyOf(rank, s[0]), KeyOf(rank, y))
  {
    if y == s[0] {
      RankOrder(KeyOf(rank, y), KeyOf(rank, y), KeyOf(rank, y));
    } else {
      var j :| 0 <= j < |s| && s[j] == y;
      assert Precedes(s, s[0], y);
    }
  }

  /** Sorting is stable: it goes by the sort keys, and by the given order where these are equal. */
  lemma {:induction false} SortStable(rank: Ranking, s: seq<Instance>)
    requires Distinct(s)
    ensures Distinct(Sort(rank, s)) && forall x :: x in Sort(rank, s) <==> x in s
    ensures forall a, b :: Precedes(Sort(rank, s), a, b) <==>
      && a in s && b in s && a != b && AtMost(KeyOf(rank, a), KeyOf(rank, b))
      && (KeyOf(rank, a) == KeyOf(rank, b) ==> Precedes(s, a, b))
  {
    if s != [] {
      var x, rest := s[0], Sort(rank, s[1..]);
      DistinctCons(s);
      SortStable(rank, s[1..]);
      InsertHas(rank, x, rest);
      InsertDistinct(rank, x, rest);
      assert Ordered(rank, rest);
      forall a, b ensures Precedes(Sort(rank, s), a, b) <==>
        && a in s && b in s && a != b && AtMost(KeyOf(rank, a), KeyOf(rank, b))
        && (KeyOf(rank, a) == KeyOf(rank, b) ==> Precedes(s, a, b))
      {
        SortOne(rank, s, rest, a, b);
      }
    }
  }

  lemma {:induction false} SortOne(rank: Ranking, s: seq<Instance>, rest: seq<Instance>, a: Instance, b: Instance)
    requires s != [] && Distinct(s) && Distinct(rest) && Ordered(rank, rest)
    requires forall x :: x in rest <==> x in s[1..]
    requires Precedes(rest, a, b) <==>
      && a in s[1..] && b in s[1..] && a != b && AtMost(KeyOf(rank, a), KeyOf(rank, b))
      && (KeyOf(rank, a) == KeyOf(rank, b) ==> Precedes(s[1..], a, b))
    ensures Precedes(Insert(rank, s[0], rest), a, b) <==>
      && a in s && b in s && a != b && AtMost(KeyOf(rank, a), KeyOf(rank, b))
      && (KeyOf(rank, a) == KeyOf(rank, b) ==> Precedes(s, a, b))
  {
    DistinctCons(s);
    InTail(s, a);
    InTail(s, b);
    InsertPrecedes(rank, s[0], rest, a, b);
    PrecedesCons(s[0], s[1..], a, b);
    PrecedesIn(s[1..], a, b);
    RankOrder(KeyOf(rank, a), KeyOf(rank, b), KeyOf(rank, a));
  }

  // ----- keeping some of a list

  function Kept(s: seq<Instance>, keep: set<Instance>): (r: seq<Instance>) {
    if s == [] then [] else (if s[0] in keep then [s[0]] else []) + Kept(s[1..], keep)
  }

  lemma {:induction false} KeptIs(s: seq<Instance>, keep: set<Instance>)
    requires Distinct(s)
    ensures Distinct(Kept(s, keep)) && forall x :: x in Kept(s, keep) <==> x in s && x in keep
    ensures forall a, b :: Precedes(Kept(s, keep), a, b) <==> Precedes(s, a, b) && a in keep && b in keep
  {
    if s != [] {
      DistinctCons(s);
      var rest := Kept(s[1..], keep);
      KeptIs(s[1..], keep);
      if s[0] in keep {
        assert Kept(s, keep) == [s[0]] + rest;
        DistinctCons([s[0]] + rest);
        assert ([s[0]] + rest)[1..] == rest;
      } else {
        assert Kept(s, keep) == rest;
      }
      forall a, b ensures Precedes(Kept(s, keep), a, b) <==> Precedes(s, a, b) && a in keep && b in keep {
        PrecedesCons(s[0], s[1..], a, b);
        PrecedesCons(s[0], rest, a, b);
        PrecedesIn(s[1..], a, b);
      }
    }
  }

  /** Elements of equal sort key that are kept come in the same order in both lists. */
  ghost predicate SameTies(rank: Ranking, s: seq<Instance>, t: seq<Instance>, keep: set<Instance>) {
    forall a, b :: a in keep && b in keep && KeyOf(rank, a) == KeyOf(rank, b) ==> (Precedes(s, a, b) <==> Precedes(t, a, b))
  }

  /** Two orders of the same instances list the kept ones alike exactly when their ties are in the same order. */
  lemma {:induction false} ListedAlike(rank: Ranking, s: seq<Instance>, t: seq<Instance>, keep: set<Instance>)
    requires Distinct(s) && Distinct(t) && forall x :: x in s <==> x in t
    ensures Kept(Sort(rank, s), keep) == Kept(Sort(rank, t), keep) <==> SameTies(rank, s, t, keep)
  {
    SortStable(rank, s);
    SortStable(rank, t);
    var u, v := Sort(rank, s), Sort(rank, t);
    KeptIs(u, keep);
    KeptIs(v, keep);
    if SameTies(rank, s, t, keep) {
      forall a, b ensures Precedes(Kept(u, keep), a, b) <==> Precedes(Kept(v, keep), a, b) {
      }
      SamePrecedence(Kept(u, keep), Kept(v, keep));
    } else {
      var a, b :| a in keep && b in keep && KeyOf(rank, a) == KeyOf(rank, b) && !(Precedes(s, a, b) <==> Precedes(t, a, b));
      TiesShow(rank, s, a, b);
      TiesShow(rank, t, a, b);
      assert Precedes(Kept(u, keep), a, b) <==> Precedes(s, a, b);
      assert Precedes(Kept(v, keep), a, b) <==> Precedes(t, a, b);
    }
  }

  lemma {:induction false} TiesShow(rank: Ranking, s: seq<Instance>, a: Instance, b: Instance)
    requires Distinct(s) && KeyOf(rank, a) == KeyOf(rank, b)
    ensures Precedes(Sort(rank, s), a, b) <==> Precedes(s, a, b)
  {
    SortStable(rank, s);
    PrecedesIn(s, a, b);
    RankOrder(KeyOf(rank, a), KeyOf(rank, b), KeyOf(rank, a));
  }

  /** Instances written the usual way - without leading zeros, or with a character that is no digit - never tie. */
  predicate Usual(i: Instance) {
    HasNonDigit(i) || (IsNumeral(i) && |i| <= 4300)
  }

  lemma UsualNeverTie(rank: Ranking, i: Instance, j: Instance)
    requires RankingOk(rank) && Usual(i) && Usual(j) && i != j
    ensures rank(i).Some? && rank(j).Some? && KeyOf(rank, i) != KeyOf(rank, j)
  {
    if IsNumeral(i) && IsNumeral(j) {
      RenderOfValue(i);
      RenderOfValue(j);
    }
  }
}
