/** The macro pad's list: adding, replacing and dropping macros, and ids for new ones. */
module MacroPad {
  import Decimals

  datatype Macro = Macro(id: string, group: string, caption: string, text: string)

  function Ids(macros: seq<Macro>): set<string> {
    set macro | macro in macros :: macro.id
  }

  predicate AreUnique(macros: seq<Macro>) {
    forall i, j :: 0 <= i < j < |macros| ==> macros[i].id != macros[j].id
  }

  /** The name tried for number `n`. */
  function Name(n: nat): string {
    "m" + Decimals.Decimal(n)
  }

  lemma NamesDiffer(m: nat, n: nat)
    requires m != n
    ensures Name(m) != Name(n)
  {
    if Name(m) == Name(n) {
      assert Name(m)[1..] == Decimals.Decimal(m) && Name(n)[1..] == Decimals.Decimal(n);
      Decimals.DecimalIsInjective(m, n);
    }
  }

  function Names(first: nat, end: nat): set<string> {
    set k | first <= k < end :: Name(k)
  }

  lemma OneMoreName(first: nat, last: nat)
    requires first <= last
    ensures Name(last) !in Names(first, last) && Names(first, last + 1) == Names(first, last) + {Name(last)}
  {
    hide Name;
    forall k | first <= k < last
      ensures Name(k) != Name(last)
    {
      NamesDiffer(k, last);
    }
  }

  lemma {:induction false} NamesAreAsMany(first: nat, end: nat)
    requires first <= end
    ensures |Names(first, end)| == end - first
  {
    if first < end {
      NamesAreAsMany(first, end - 1);
      OneMoreName(first, end - 1);
    }
  }

  lemma {:induction false} IdsAreNoMore(macros: seq<Macro>)
    ensures |Ids(macros)| <= |macros|
  {
    if macros != [] {
      var before, last := macros[..|macros| - 1], macros[|macros| - 1];
      IdsAreNoMore(before);
      assert macros == before + [last];
      assert Ids(macros) == Ids(before) + {last.id};
    }
  }

  lemma SubsetIsNoLarger(small: set<string>, large: set<string>)
    requires small <= large
    ensures |small| <= |large|
  {
    assert large == small + (large - small);
  }

  /** Names that are all taken cannot outnumber the macros that take them. */
  lemma Pigeonhole(macros: seq<Macro>, first: nat, end: nat)
    requires first <= end && forall k :: first <= k < end ==> Name(k) in Ids(macros)
    ensures end - first <= |macros|
  {
    NamesAreAsMany(first, end);
    IdsAreNoMore(macros);
    SubsetIsNoLarger(Names(first, end), Ids(macros));
  }

  /** `n` is the first number past the length whose name is free. */
  predicate IsNext(macros: seq<Macro>, n: nat) {
    && n > |macros| && Name(n) !in Ids(macros)
    && forall k :: |macros| < k < n ==> Name(k) in Ids(macros)
  }

  /** The search ends within one more try than there are macros. */
  lemma NextIsNear(macros: seq<Macro>, n: nat)
    requires IsNext(macros, n)
    ensures n <= 2 * |macros| + 1
  {
    Pigeonhole(macros, |macros| + 1, n);
  }

  // ---------------------------------------------------------------- the list

  /** Where the macro with `id` is, or the end. */
  function IndexOf(macros: seq<Macro>, id: string): (i: nat)
    ensures i <= |macros|
    ensures i < |macros| ==> macros[i].id == id
    ensures forall j :: 0 <= j < i ==> macros[j].id != id
  {
    if macros == [] || macros[0].id == id then 0 else 1 + IndexOf(macros[1..], id)
  }

  function Placed(macros: seq<Macro>, item: Macro): seq<Macro> {
    var i := IndexOf(macros, item.id);
    if i < |macros| then macros[i := item] else macros + [item]
  }

  function Dropped(macros: seq<Macro>, id: string): seq<Macro> {
    if macros == [] then []
    else if macros[0].id == id then Dropped(macros[1..], id)
    else [macros[0]] + Dropped(macros[1..], id)
  }

  /** A macro with a new id goes last, and taking it out again leaves the list as it was. */
  lemma NewGoesLast(macros: seq<Macro>, item: Macro)
    requires item.id !in Ids(macros)
    ensures Placed(macros, item) == macros + [item]
    ensures Dropped(macros + [item], item.id) == macros
  {
    assert forall i :: 0 <= i < |macros| ==> macros[i].id in Ids(macros);
    hide Ids;
    DroppedSplits(macros, [item], item.id);
    DroppedAbsent(macros, item.id);
    assert [item][1..] == [] && macros + [] == macros;
  }

  lemma {:induction false} DroppedSplits(macros: seq<Macro>, more: seq<Macro>, id: string)
    ensures Dropped(macros + more, id) == Dropped(macros, id) + Dropped(more, id)
  {
    if macros == [] {
      assert macros + more == more && [] + Dropped(more, id) == Dropped(more, id);
    } else {
      DroppedSplits(macros[1..], more, id);
      assert (macros + more)[1..] == macros[1..] + more && (macros + more)[0] == macros[0];
      var rest, last := Dropped(macros[1..], id), Dropped(more, id);
      assert [macros[0]] + (rest + last) == [macros[0]] + rest + last;
    }
  }

  lemma {:induction false} DroppedAbsent(macros: seq<Macro>, id: string)
    requires forall i :: 0 <= i < |macros| ==> macros[i].id != id
    ensures Dropped(macros, id) == macros
  {
    if macros != [] {
      DroppedAbsent(macros[1..], id);
      assert macros == [macros[0]] + macros[1..];
    }
  }

  /** The names given out are always good for one more macro: under the next id the list grows by
      one, and no id is there twice. */
  lemma NextGrows(macros: seq<Macro>, n: nat, item: Macro)
    requires IsNext(macros, n) && item.id == Name(n)
    ensures Placed(macros, item) == macros + [item]
    ensures AreUnique(macros) ==> AreUnique(Placed(macros, item))
  {
    NewGoesLast(macros, item);
    assert forall i :: 0 <= i < |macros| ==> macros[i].id in Ids(macros);
  }

  /** Replacing or adding keeps ids unique and touches no other macro. */
  lemma PlacedKeeps(macros: seq<Macro>, item: Macro)
    requires AreUnique(macros)
    ensures AreUnique(Placed(macros, item))
    ensures forall macro :: macro in Placed(macros, item) <==> macro == item || (macro in macros && macro.id != item.id)
  {
    var i, next := IndexOf(macros, item.id), Placed(macros, item);
    assert next[i] == item;
    assert forall j :: 0 <= j < |macros| && j != i ==> next[j] == macros[j] && macros[j].id != item.id;
    forall macro | macro in macros && macro.id != item.id
      ensures macro in next
    {
      var j :| 0 <= j < |macros| && macros[j] == macro;
      assert next[j] == macro;
    }
    forall macro | macro in next
      ensures macro == item || (macro in macros && macro.id != item.id)
    {
      var j :| 0 <= j < |next| && next[j] == macro;
    }
  }

  /** Every macro keeps its place: the first one with the id is replaced there, and only a macro
      whose id is new comes behind the others. */
  lemma PlacedInPlace(macros: seq<Macro>, item: Macro)
    ensures |Placed(macros, item)| == |macros| + (if item.id in Ids(macros) then 0 else 1)
    ensures forall i :: 0 <= i < |macros| ==>
      Placed(macros, item)[i]
      == (if macros[i].id == item.id && item.id !in Ids(macros[..i]) then item else macros[i])
    ensures item.id !in Ids(macros) ==> Placed(macros, item)[|macros|] == item
  {
    var at := IndexOf(macros, item.id);
    forall i | 0 <= i < |macros|
      ensures (macros[i].id == item.id && item.id !in Ids(macros[..i])) == (i == at)
    {
      if at < i {
        assert macros[..i][at] == macros[at];
      }
    }
    if at < |macros| {
      assert macros[at] in macros;
    }
  }

  lemma {:induction false} DroppedKeeps(macros: seq<Macro>, id: string)
    ensures AreUnique(macros) ==> AreUnique(Dropped(macros, id))
    ensures forall macro :: macro in Dropped(macros, id) <==> macro in macros && macro.id != id
  {
    if macros != [] {
      DroppedKeeps(macros[1..], id);
      assert macros == [macros[0]] + macros[1..];
    }
  }

  // ---------------------------------------------------------------- the object

  class MacroList {
    var macros: seq<Macro>

    constructor ()
      ensures macros == []
    {
      macros := [];
    }

    /** Overwrites the macro in its place, or appends it, as `Placed` says. */
    method Upsert(item: Macro)
      modifies this
      ensures macros == Placed(old(macros), item)
    {
      var i := 0;
      while i < |macros| && macros[i].id != item.id
        invariant 0 <= i <= |macros| && forall k :: 0 <= k < i ==> macros[k].id != item.id
      {
        i := i + 1;
      }
      assert i == IndexOf(macros, item.id);
      macros := if i < |macros| then macros[i := item] else macros + [item];
    }

    /** One pass that copies the other macros, as `Dropped` says. */
    method Remove(id: string)
      modifies this
      ensures macros == Dropped(old(macros), id)
    {
      var kept: seq<Macro> := [];
      for i := 0 to |macros|
        invariant macros == old(macros)
        invariant Dropped(macros, id) == kept + Dropped(macros[i..], id)
      {
        assert macros[i..][1..] == macros[i + 1..];
        if macros[i].id != id {
          kept := kept + [macros[i]];
        }
      }
      macros := kept;
    }

    /** The first free name from the length on; the loop ends since only as many names as macros are taken. */
    method NextId() returns (id: string)
      ensures exists n: nat :: id == Name(n) == "m" + Decimals.Decimal(n) && IsNext(macros, n) && n <= 2 * |macros| + 1
    {
      var n := |macros| + 1;
      while true
        invariant n > |macros|
        invariant forall k :: |macros| < k < n ==> Name(k) in Ids(macros)
        decreases 2 * |macros| + 1 - n
      {
        var candidate := Name(n);
        if candidate !in Ids(macros) {
          NextIsNear(macros, n);
          assert IsNext(macros, n);
          return candidate;
        }
        Pigeonhole(macros, |macros| + 1, n + 1);
        n := n + 1;
      }
    }
  }
}
