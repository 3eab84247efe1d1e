/** _interleave_addrinfos of api_create_connection.py: connection attempts ordered by family, section 4 of RFC 8305. */
module Interleave {
  import opened Prelude

  type Family = nat

  /** A getaddrinfo() tuple: its family and everything else. */
  datatype AddrInfo = AddrInfo(family: Family, rest: nat)

  /** The addresses of one family, in order. */
  function Of(infos: seq<AddrInfo>, f: Family): (r: seq<AddrInfo>)
    ensures |r| <= |infos| && forall i :: 0 <= i < |r| ==> r[i].family == f
  {
    if infos == [] then [] else (if infos[0].family == f then [infos[0]] else []) + Of(infos[1..], f)
  }

  lemma {:induction false} OfConcat(a: seq<AddrInfo>, b: seq<AddrInfo>, f: Family)
    ensures Of(a + b, f) == Of(a, f) + Of(b, f)
  {
    if a == [] {
      assert a + b == b;
    } else {
      assert (a + b)[1..] == a[1..] + b;
      OfConcat(a[1..], b, f);
    }
  }

  lemma {:induction false} OfSame(infos: seq<AddrInfo>, f: Family)
    requires forall i :: 0 <= i < |infos| ==> infos[i].family == f
    ensures Of(infos, f) == infos
    ensures forall g :: g != f ==> Of(infos, g) == []
  {
    if infos != [] {
      OfSame(infos[1..], f);
    }
  }

  /** Lists with the same addresses of every family, in the same order, are permutations of each other. */
  lemma {:induction false} SameOfSameBag(a: seq<AddrInfo>, b: seq<AddrInfo>)
    requires forall f :: Of(a, f) == Of(b, f)
    ensures multiset(a) == multiset(b)
  {
    forall x: AddrInfo
      ensures multiset(a)[x] == multiset(b)[x]
    {
      CountOf(a, x);
      CountOf(b, x);
    }
  }

  lemma {:induction false} CountOf(a: seq<AddrInfo>, x: AddrInfo)
    ensures multiset(a)[x] == multiset(Of(a, x.family))[x]
  {
    if a != [] {
      CountOf(a[1..], x);
      assert a == [a[0]] + a[1..];
    }
  }

  // ------------------------------------------------------------------ taking turns

  /** How many addresses of the same family come before position p. */
  function Turn(s: seq<AddrInfo>, p: nat): nat
    requires p < |s|
  {
    |Of(s[..p], s[p].family)|
  }

  /** The first of each list that has one. */
  ghost function Heads(lists: seq<seq<AddrInfo>>): seq<AddrInfo> {
    if lists == [] then [] else (if lists[0] == [] then [] else [lists[0][0]]) + Heads(lists[1..])
  }

  ghost function Tails(lists: seq<seq<AddrInfo>>): (r: seq<seq<AddrInfo>>)
    ensures |r| == |lists|
    ensures forall j :: 0 <= j < |lists| ==> r[j] == if lists[j] == [] then [] else lists[j][1..]
  {
    seq(|lists|, j requires 0 <= j < |lists| => if lists[j] == [] then [] else lists[j][1..])
  }

  ghost function Longest(lists: seq<seq<AddrInfo>>): (n: nat)
    ensures forall j :: 0 <= j < |lists| ==> |lists[j]| <= n
    ensures n == 0 || exists j :: 0 <= j < |lists| && |lists[j]| == n
  {
    if lists == [] then 0 else
      var n := Longest(lists[1..]);
      assert forall j :: 0 < j < |lists| ==> lists[j] == lists[1..][j - 1];
      assert n == 0 || exists j :: 0 < j < |lists| && |lists[j]| == n by {
        if n != 0 {
          var j :| 0 <= j < |lists[1..]| && |lists[1..][j]| == n;
          assert |lists[j + 1]| == n;
        }
      }
      Max(|lists[0]|, n)
  }

  lemma TailsShorter(lists: seq<seq<AddrInfo>>)
    requires Longest(lists) > 0
    ensures Longest(Tails(lists)) == Longest(lists) - 1
  {
    var j :| 0 <= j < |lists| && |lists[j]| == Longest(lists);
    assert |Tails(lists)[j]| == Longest(lists) - 1;
  }

  /** Everybody's first, then everybody's second, and so on. */
  ghost function Rounds(lists: seq<seq<AddrInfo>>): seq<AddrInfo>
    decreases Longest(lists)
  {
    if Longest(lists) == 0 then [] else
      TailsShorter(lists);
      Heads(lists) + Rounds(Tails(lists))
  }

  /** One list for each family, as the grouping loop leaves them. */
  ghost predicate Grouped(families: seq<Family>, lists: seq<seq<AddrInfo>>) {
    && |families| == |lists|
    && (forall i, j :: 0 <= i < j < |families| ==> families[i] != families[j])
    && (forall j, i :: 0 <= j < |lists| && 0 <= i < |lists[j]| ==> lists[j][i].family == families[j])
  }

  lemma GroupedTails(families: seq<Family>, lists: seq<seq<AddrInfo>>)
    requires Grouped(families, lists)
    ensures Grouped(families, Tails(lists))
  {
  }

  lemma GroupedRest(families: seq<Family>, lists: seq<seq<AddrInfo>>)
    requires Grouped(families, lists) && lists != []
    ensures Grouped(families[1..], lists[1..]) && families[0] !in families[1..]
    ensures forall f, j :: 0 < j < |families| && families[j] == f ==> f in families[1..]
  {
    assert forall j :: 0 < j < |families| ==> families[j] == families[1..][j - 1];
  }

  lemma {:induction false} HeadsOf(families: seq<Family>, lists: seq<seq<AddrInfo>>, f: Family)
    requires Grouped(families, lists)
    ensures forall j :: 0 <= j < |lists| && families[j] == f ==>
              Of(Heads(lists), f) == if lists[j] == [] then [] else [lists[j][0]]
    ensures f !in families ==> Of(Heads(lists), f) == []
  {
    hide Of;
    OfNothing(f);
    if lists != [] {
      GroupedRest(families, lists);
      HeadsOf(families[1..], lists[1..], f);
      var h := if lists[0] == [] then [] else [lists[0][0]];
      OfConcat(h, Heads(lists[1..]), f);
      OfSame(h, families[0]);
      forall j | 0 <= j < |lists| && families[j] == f
        ensures Of(Heads(lists), f) == if lists[j] == [] then [] else [lists[j][0]]
      {
        if j > 0 {
          assert families[1..][j - 1] == f && lists[1..][j - 1] == lists[j];
        }
      }
    }
  }

  lemma OfNothing(f: Family)
    ensures Of([], f) == []
  {
  }

  lemma RoundsStep(lists: seq<seq<AddrInfo>>)
    ensures Longest(lists) > 0 ==>
              Longest(Tails(lists)) < Longest(lists) && Rounds(lists) == Heads(lists) + Rounds(Tails(lists))
    ensures Longest(lists) == 0 ==> Rounds(lists) == [] && forall j :: 0 <= j < |lists| ==> lists[j] == []
  {
    hide Heads, Tails;
    if Longest(lists) > 0 {
      TailsShorter(lists);
    }
  }

  /** Taking turns keeps the order within each family and loses nothing. */
  lemma {:induction false} RoundsOf(families: seq<Family>, lists: seq<seq<AddrInfo>>, f: Family)
    requires Grouped(families, lists)
    ensures forall j :: 0 <= j < |lists| && families[j] == f ==> Of(Rounds(lists), f) == lists[j]
    ensures f !in families ==> Of(Rounds(lists), f) == []
    decreases Longest(lists)
  {
    hide Of, Longest, Heads, Tails, Rounds, Grouped;
    RoundsStep(lists);
    OfNothing(f);
    SameSize(families, lists);
    if Longest(lists) > 0 {
      GroupedTails(families, lists);
      RoundsOf(families, Tails(lists), f);
      HeadsOf(families, lists, f);
      OfConcat(Heads(lists), Rounds(Tails(lists)), f);
      forall j | 0 <= j < |lists| && families[j] == f ensures Of(Rounds(lists), f) == lists[j] {
        assert Of(Rounds(Tails(lists)), f) == Tails(lists)[j];
      }
    }
  }

  lemma SameSize(families: seq<Family>, lists: seq<seq<AddrInfo>>)
    requires Grouped(families, lists)
    ensures |families| == |lists|
  {
  }

  lemma {:induction false} HeadsSorted(lists: seq<seq<AddrInfo>>) returns (at: seq<nat>)
    ensures |at| == |Heads(lists)|
    ensures forall p :: 0 <= p < |at| ==> at[p] < |lists| && lists[at[p]] != [] && Heads(lists)[p] == lists[at[p]][0]
    ensures forall p, q :: 0 <= p < q < |at| ==> at[p] < at[q]
  {
    hide Heads;
    NoLists();
    if lists == [] {
      at := [];
    } else {
      var tail := lists[1..];
      var rest := HeadsSorted(tail);
      var k := if lists[0] == [] then 0 else 1;
      at := seq(k + |rest|, p requires 0 <= p < k + |rest| => if p < k then 0 else rest[p - k] + 1);
      HeadsStep(lists);
      forall p | 0 <= p < |at|
        ensures at[p] < |lists| && lists[at[p]] != [] && Heads(lists)[p] == lists[at[p]][0]
      {
        if p >= k {
          assert tail[rest[p - k]] == lists[at[p]] && Heads(lists)[p] == Heads(tail)[p - k];
        }
      }
    }
  }

  lemma HeadsStep(lists: seq<seq<AddrInfo>>)
    requires lists != []
    ensures Heads(lists) == (if lists[0] == [] then [] else [lists[0][0]]) + Heads(lists[1..])
  {
  }

  lemma NoLists()
    ensures Heads([]) == []
  {
  }

  /** Nobody gets a second turn in a round: in a list of heads every turn is the first. */
  lemma HeadsTurn(families: seq<Family>, lists: seq<seq<AddrInfo>>, p: nat)
    requires Grouped(families, lists) && p < |Heads(lists)|
    ensures Turn(Heads(lists), p) == 0
  {
    hide Heads;
    var s := Heads(lists);
    var f := s[p].family;
    var at := HeadsSorted(lists);
    HeadsOf(families, lists, f);
    assert families[at[p]] == f;
    assert s == s[..p] + s[p..];
    OfConcat(s[..p], s[p..], f);
    assert s[p..][0] == s[p];
  }

  /** The position of an address in a list of rounds, as a turn and a family. */
  lemma RoundsTurn(families: seq<Family>, lists: seq<seq<AddrInfo>>, p: nat)
    requires Grouped(families, lists) && p < |Rounds(lists)|
    ensures Longest(lists) > 0
    ensures p < |Heads(lists)| ==> Rounds(lists)[p] == Heads(lists)[p] && Turn(Rounds(lists), p) == 0
    ensures p >= |Heads(lists)| ==>
              && p - |Heads(lists)| < |Rounds(Tails(lists))|
              && Rounds(lists)[p] == Rounds(Tails(lists))[p - |Heads(lists)|]
              && Turn(Rounds(lists), p) == 1 + Turn(Rounds(Tails(lists)), p - |Heads(lists)|)
  {
    hide Of, Longest, Heads, Tails, Rounds, Grouped;
    RoundsStep(lists);
    var s, h, t := Rounds(lists), Heads(lists), Rounds(Tails(lists));
    if p < |h| {
      assert s[..p] == h[..p];
      HeadsTurn(families, lists, p);
    } else {
      var k := p - |h|;
      assert s[..p] == h + t[..k];
      OfConcat(h, t[..k], t[k].family);
      LaterTurn(families, lists, k);
    }
  }

  /** Who has a turn in a later round has had one in the first. */
  lemma LaterTurn(families: seq<Family>, lists: seq<seq<AddrInfo>>, k: nat)
    requires Grouped(families, lists) && Longest(lists) > 0 && k < |Rounds(Tails(lists))|
    ensures |Of(Heads(lists), Rounds(Tails(lists))[k].family)| == 1
  {
    hide Of, Longest, Heads, Rounds;
    var t := Rounds(Tails(lists));
    var f := t[k].family;
    GroupedTails(families, lists);
    HeadsOf(families, lists, f);
    RoundsOf(families, Tails(lists), f);
    OccursIn(t, k);
    var j :| 0 <= j < |families| && families[j] == f;
  }

  lemma OccursIn(s: seq<AddrInfo>, k: nat)
    requires k < |s|
    ensures Of(s, s[k].family) != []
  {
    assert s == s[..k] + s[k..];
    OfConcat(s[..k], s[k..], s[k].family);
  }

  ghost predicate Before(families: seq<Family>, a: Family, b: Family) {
    exists i, j :: 0 <= i < j < |families| && families[i] == a && families[j] == b
  }

  /** Fairness: turns never go back, and within one round the families keep their order. */
  lemma {:induction false} RoundsAreFair(families: seq<Family>, lists: seq<seq<AddrInfo>>, p: nat, q: nat)
    requires Grouped(families, lists) && p < q < |Rounds(lists)|
    ensures var s := Rounds(lists);
            || Turn(s, p) < Turn(s, q)
            || (Turn(s, p) == Turn(s, q) && Before(families, s[p].family, s[q].family))
    decreases Longest(lists)
  {
    hide Of, Turn, Longest, Heads, Tails, Rounds;
    RoundsTurn(families, lists, p);
    RoundsTurn(families, lists, q);
    var n := |Heads(lists)|;
    if q < n {
      var at := HeadsSorted(lists);
      assert families[at[p]] == Rounds(lists)[p].family && families[at[q]] == Rounds(lists)[q].family;
    } else if p >= n {
      TailsShorter(lists);
      GroupedTails(families, lists);
      RoundsAreFair(families, Tails(lists), p - n, q - n);
    }
  }

  // ------------------------------------------------------------------ the function

  /** Families in the order in which they first appear. */
  function Families(infos: seq<AddrInfo>): seq<Family> {
    if infos == [] then []
    else
      var f := Families(infos[..|infos| - 1]);
      var last := infos[|infos| - 1].family;
      if last in f then f else f + [last]
  }

  ghost predicate Groups(infos: seq<AddrInfo>, families: seq<Family>, lists: seq<seq<AddrInfo>>) {
    && families == Families(infos)
    && Grouped(families, lists)
    && (forall j :: 0 <= j < |lists| ==> lists[j] == Of(infos, families[j]) && lists[j] != [])
    && (forall f :: f !in families ==> Of(infos, f) == [])
  }

  /** What one more address changes. */
  lemma OfStep(infos: seq<AddrInfo>, n: nat)
    requires n < |infos|
    ensures var addr := infos[n];
            && (forall f :: Of(infos[..n + 1], f) == Of(infos[..n], f) + if f == addr.family then [addr] else [])
            && Families(infos[..n + 1]) == (var fs := Families(infos[..n]);
                                            if addr.family in fs then fs else fs + [addr.family])
  {
    hide Of;
    var addr := infos[n];
    assert infos[..n + 1] == infos[..n] + [addr];
    assert infos[..n + 1][..n] == infos[..n];
    forall f ensures Of(infos[..n + 1], f) == Of(infos[..n], f) + if f == addr.family then [addr] else [] {
      OfConcat(infos[..n], [addr], f);
      OfSame([addr], addr.family);
    }
  }

  /** Families lists every family once. */
  lemma {:induction false} FamiliesDiffer(infos: seq<AddrInfo>)
    ensures forall i, j :: 0 <= i < j < |Families(infos)| ==> Families(infos)[i] != Families(infos)[j]
  {
    if infos != [] {
      FamiliesDiffer(infos[..|infos| - 1]);
    }
  }

  lemma GroupsAre(infos: seq<AddrInfo>, families: seq<Family>, lists: seq<seq<AddrInfo>>)
    requires families == Families(infos) && |lists| == |families|
    requires forall j :: 0 <= j < |lists| ==> lists[j] == Of(infos, families[j]) && lists[j] != []
    requires forall f :: f !in families ==> Of(infos, f) == []
    ensures Groups(infos, families, lists)
  {
    hide Families;
    FamiliesDiffer(infos);
  }

  lemma NoFamilies()
    ensures Families([]) == [] && forall f :: Of([], f) == []
  {
  }

  /** The ordered dictionary of lists. */
  method GroupByFamily(infos: seq<AddrInfo>) returns (families: seq<Family>, lists: seq<seq<AddrInfo>>)
    ensures Groups(infos, families, lists)
    ensures infos != [] ==> families != [] && families[0] == infos[0].family
  {
    hide Of, Families, Groups;
    NoFamilies();
    families := [];
    var byFamily: map<Family, seq<AddrInfo>> := map[];
    var n := 0;
    while n < |infos|
      invariant n <= |infos| && families == Families(infos[..n])
      invariant forall f :: f in byFamily <==> f in families
      invariant forall f :: f in families ==> byFamily[f] == Of(infos[..n], f) && byFamily[f] != []
      invariant forall f :: f !in families ==> Of(infos[..n], f) == []
      invariant n > 0 ==> families != [] && families[0] == infos[0].family
    {
      var addr := infos[n];
      var family := addr.family;
      OfStep(infos, n);
      if family !in byFamily {
        byFamily := byFamily[family := []];
        families := families + [family];
      }
      byFamily := byFamily[family := byFamily[family] + [addr]];
      n := n + 1;
    }
    assert infos[..n] == infos;
    lists := seq(|families|, j requires 0 <= j < |families| => byFamily[families[j]]);
    GroupsAre(infos, families, lists);
  }

  ghost function DropAll(lists: seq<seq<AddrInfo>>, i: nat): (r: seq<seq<AddrInfo>>)
    ensures |r| == |lists|
    ensures forall j :: 0 <= j < |lists| ==> r[j] == lists[j][Min(i, |lists[j]|)..]
  {
    seq(|lists|, j requires 0 <= j < |lists| => lists[j][Min(i, |lists[j]|)..])
  }

  lemma {:induction false} HeadsSnoc(lists: seq<seq<AddrInfo>>, last: seq<AddrInfo>)
    ensures Heads(lists + [last]) == Heads(lists) + if last == [] then [] else [last[0]]
  {
    hide Heads;
    NoLists();
    var all := lists + [last];
    HeadsStep(all);
    if lists == [] {
      assert all == [last] && all[1..] == [];
    } else {
      assert all[0] == lists[0] && all[1..] == lists[1..] + [last];
      HeadsStep(lists);
      HeadsSnoc(lists[1..], last);
    }
  }

  lemma {:induction false} NoHeads(lists: seq<seq<AddrInfo>>)
    requires Heads(lists) == []
    ensures Longest(lists) == 0
  {
    if lists != [] {
      NoHeads(lists[1..]);
    }
  }

  /** One tuple of zip_longest, without its None entries. */
  method Round(lists: seq<seq<AddrInfo>>, i: nat) returns (row: seq<AddrInfo>)
    ensures row == Heads(DropAll(lists, i))
  {
    ghost var all := DropAll(lists, i);
    row := [];
    var j := 0;
    assert all[..0] == [];
    while j < |lists|
      invariant j <= |lists| && row == Heads(all[..j])
    {
      assert all[..j + 1] == all[..j] + [all[j]];
      HeadsSnoc(all[..j], all[j]);
      if i < |lists[j]| {
        row := row + [lists[j][i]];
      }
      j := j + 1;
    }
    assert all[..j] == all;
  }

  lemma {:induction false} SomeHead(lists: seq<seq<AddrInfo>>)
    requires Heads(lists) != []
    ensures Longest(lists) > 0
  {
    if lists[0] == [] {
      SomeHead(lists[1..]);
    }
  }

  lemma RoundStep(lists: seq<seq<AddrInfo>>, i: nat)
    ensures var rest := DropAll(lists, i);
            if Heads(rest) == [] then Rounds(rest) == []
            else
              && Longest(DropAll(lists, i + 1)) < Longest(rest)
              && Rounds(rest) == Heads(rest) + Rounds(DropAll(lists, i + 1))
  {
    hide Longest, Heads;
    var rest := DropAll(lists, i);
    if Heads(rest) == [] {
      NoHeads(rest);
    } else {
      SomeHead(rest);
      TailsShorter(rest);
      assert Tails(rest) == DropAll(lists, i + 1);
    }
  }

  /** chain.from_iterable(zip_longest(*lists)) with the padding filtered out: a row without entries is past every
      end. */
  method ZipLongest(lists: seq<seq<AddrInfo>>) returns (out: seq<AddrInfo>)
    ensures out == Rounds(lists)
  {
    hide Longest, Heads, Tails, Rounds, DropAll;
    out := [];
    var i := 0;
    DropNone(lists);
    while true
      invariant out + Rounds(DropAll(lists, i)) == Rounds(lists)
      decreases Longest(DropAll(lists, i))
    {
      var row := Round(lists, i);
      RoundStep(lists, i);
      if |row| == 0 {
        return;
      }
      Assoc(out, row, Rounds(DropAll(lists, i + 1)));
      out := out + row;
      i := i + 1;
    }
  }

  lemma DropNone(lists: seq<seq<AddrInfo>>)
    ensures DropAll(lists, 0) == lists
  {
  }

  /** How many addresses are taken from the first family before the turns begin. */
  function Lead(infos: seq<AddrInfo>, count: int): (n: nat)
  {
    if infos == [] then 0 else Min(Max(count - 1, 0), |Of(infos, infos[0].family)|)
  }

  ghost predicate KeepsFamilyOrder(infos: seq<AddrInfo>, out: seq<AddrInfo>) {
    forall f :: Of(out, f) == Of(infos, f)
  }

  ghost predicate TakesTurns(families: seq<Family>, s: seq<AddrInfo>) {
    forall p, q :: 0 <= p < q < |s| ==>
      || Turn(s, p) < Turn(s, q)
      || (Turn(s, p) == Turn(s, q) && Before(families, s[p].family, s[q].family))
  }

  /** _interleave_addrinfos. An empty list with a count above one is an IndexError. */
  method InterleaveAddrinfos(infos: seq<AddrInfo>, count: int) returns (out: Option<seq<AddrInfo>>)
    ensures out.None? <==> infos == [] && count > 1
    ensures out.Some? ==> multiset(out.value) == multiset(infos) && KeepsFamilyOrder(infos, out.value)
    // the first min(count, n) entries are the first ones of the first family, which has n entries
    ensures out.Some? && infos != [] ==>
              var first := Of(infos, infos[0].family);
              var n := Min(Max(count, 1), |first|);
              n <= |out.value| && out.value[..n] == first[..n]
    // after the lead everybody's i-th address comes before anybody's (i+1)-th
    ensures out.Some? ==>
              && Lead(infos, count) <= |out.value|
              && TakesTurns(Families(infos), out.value[Lead(infos, count)..])
  {
    hide Of, Turn, Longest, Heads, Tails, Rounds, Families;
    var families, lists := GroupByFamily(infos);
    var reordered := [];
    var lead: nat := 0;
    if count > 1 {
      if |lists| == 0 {
        return None;
      }
      lead := Min(count - 1, |lists[0]|);
      reordered := lists[0][..lead];
      lists := lists[0 := lists[0][lead..]];
    }
    var turns := ZipLongest(lists);
    Assembled(infos, families, lists, reordered, count);
    return Some(reordered + turns);
  }

  /** The lists after the lead has been taken out of the first of them. */
  ghost predicate Led(infos: seq<AddrInfo>, families: seq<Family>, lists: seq<seq<AddrInfo>>, lead: seq<AddrInfo>) {
    && families == Families(infos) && Grouped(families, lists)
    && (forall f :: f !in families ==> Of(infos, f) == [])
    && (forall j :: 0 < j < |lists| ==> lists[j] == Of(infos, families[j]))
    && (if infos == [] then lead == [] && families == []
        else families != [] && families[0] == infos[0].family && lead + lists[0] == Of(infos, infos[0].family))
  }

  lemma Assembled(infos: seq<AddrInfo>, families: seq<Family>, lists: seq<seq<AddrInfo>>, lead: seq<AddrInfo>,
                  count: int)
    requires Led(infos, families, lists, lead) && |lead| == Lead(infos, count)
    ensures var out := lead + Rounds(lists);
            && multiset(out) == multiset(infos) && KeepsFamilyOrder(infos, out)
            && (infos != [] ==>
                  var first := Of(infos, infos[0].family);
                  var n := Min(Max(count, 1), |first|);
                  n <= |out| && out[..n] == first[..n])
            && TakesTurns(Families(infos), out[Lead(infos, count)..])
  {
    hide Of, Turn, Longest, Heads, Tails, Rounds, Families;
    var turns := Rounds(lists);
    var out := lead + turns;
    assert out[|lead|..] == turns;
    forall f ensures Of(out, f) == Of(infos, f) {
      OutOf(infos, families, lists, lead, f);
    }
    SameOfSameBag(out, infos);
    forall p, q | 0 <= p < q < |turns|
      ensures Turn(turns, p) < Turn(turns, q)
              || (Turn(turns, p) == Turn(turns, q) && Before(families, turns[p].family, turns[q].family))
    {
      RoundsAreFair(families, lists, p, q);
    }
    if infos != [] && lists[0] != [] {
      FirstTurn(lists);
      assert (lead + lists[0])[..|lead|] == lead;
      assert (lead + lists[0])[|lead|] == lists[0][0];
    }
  }

  lemma OutOf(infos: seq<AddrInfo>, families: seq<Family>, lists: seq<seq<AddrInfo>>, lead: seq<AddrInfo>, f: Family)
    requires Led(infos, families, lists, lead)
    ensures Of(lead + Rounds(lists), f) == Of(infos, f)
  {
    OfConcat(lead, Rounds(lists), f);
    RoundsOf(families, lists, f);
    if infos != [] {
      forall i | 0 <= i < |lead| ensures lead[i].family == families[0] {
        assert lead[i] == (lead + lists[0])[i];
      }
      OfSame(lead, families[0]);
    }
    if f in families {
      var j :| 0 <= j < |families| && families[j] == f;
    }
  }

  lemma FirstTurn(lists: seq<seq<AddrInfo>>)
    requires lists != [] && lists[0] != []
    ensures Rounds(lists) != [] && Rounds(lists)[0] == lists[0][0]
  {
    assert Longest(lists) > 0;
    assert Heads(lists)[0] == lists[0][0];
  }
}
