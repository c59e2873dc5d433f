/** Finding, filling and emptying a machine's optical drive slot. */
module OpticalSlot {
  import opened Basics

  /** One line of the machine's storage layout. */
  datatype Slot = Slot(controller: string, port: nat, device: nat, medium: string)

  function LowerChar(c: char): char
  {
    if 'A' <= c <= 'Z' then (c as int + 32) as char else c
  }

  function Lower(s: string): (r: string)
    ensures |r| == |s|
  {
    seq(|s|, i requires 0 <= i < |s| => LowerChar(s[i]))
  }

  predicate IsIso(medium: string)
  {
    |medium| >= 4 && Lower(medium)[|medium| - 4..] == ".iso"
  }

  predicate IsOptical(s: Slot)
  {
    s.medium == "emptydrive" || IsIso(s.medium)
  }

  predicate HasAt(s: string, i: nat, part: string)
  {
    i + |part| <= |s| && s[i..i + |part|] == part
  }

  predicate NamesIde(controller: string)
  {
    exists i: nat :: i < |controller| && HasAt(Lower(controller), i, "ide")
  }

  predicate IsFreeIde(s: Slot)
  {
    s.medium == "none" && NamesIde(s.controller)
  }

  /** Anything that is neither nothing nor an optical medium. */
  predicate HoldsDisk(s: Slot)
  {
    s.medium != "none" && !IsOptical(s)
  }

  // ---------------------------------------------------------------------
  // The order in which slots are looked at
  // ---------------------------------------------------------------------

  function OfController(name: string, slots: seq<Slot>, upTo: nat): (order: seq<nat>)
    requires upTo <= |slots|
    ensures forall k :: 0 <= k < |order| ==> order[k] < upTo
  {
    if upTo == 0 then []
    else OfController(name, slots, upTo - 1) + if slots[upTo - 1].controller == name then [upTo - 1] else []
  }

  /** Controllers as listed, and within each its slots as listed. */
  function Order(controllers: seq<string>, slots: seq<Slot>): (order: seq<nat>)
    ensures forall k :: 0 <= k < |order| ==> order[k] < |slots|
  {
    if controllers == [] then []
    else
      var last := |controllers| - 1;
      Order(controllers[..last], slots) + OfController(controllers[last], slots, |slots|)
  }

  predicate Wanted(s: Slot, optical: bool)
  {
    if optical then IsOptical(s) else IsFreeIde(s)
  }

  /** The first slot of a kind, in a given order of looking. */
  function First(order: seq<nat>, slots: seq<Slot>, optical: bool): Option<nat>
  {
    if order == [] then None
    else
      var last := |order| - 1;
      var before := First(order[..last], slots, optical);
      if before.Some? then before
      else if order[last] < |slots| && Wanted(slots[order[last]], optical) then Some(order[last]) else None
  }

  lemma {:induction false} FirstMeans(order: seq<nat>, slots: seq<Slot>, optical: bool)
    ensures var r := First(order, slots, optical);
      if r.Some? then r.value in order && r.value < |slots| && Wanted(slots[r.value], optical)
      else forall k :: 0 <= k < |order| && order[k] < |slots| ==> !Wanted(slots[order[k]], optical)
  {
    if order == [] {
    } else {
      FirstMeans(order[..|order| - 1], slots, optical);
      LastApart(order);
    }
  }

  /** The first optical slot, else the first free IDE slot. */
  function FindSlot(controllers: seq<string>, slots: seq<Slot>): Option<nat>
  {
    var order := Order(controllers, slots);
    var optical := First(order, slots, true);
    if optical.Some? then optical else First(order, slots, false)
  }

  /** The slots looked at once the loops have reached line `j` of controller `i`. */
  function Seen(controllers: seq<string>, slots: seq<Slot>, i: nat, j: nat): (order: seq<nat>)
    requires i < |controllers| && j <= |slots|
    ensures forall k :: 0 <= k < |order| ==> order[k] < |slots|
  {
    Order(controllers[..i], slots) + OfController(controllers[i], slots, j)
  }

  lemma SeenStart(controllers: seq<string>, slots: seq<Slot>, i: nat)
    requires i < |controllers|
    ensures Seen(controllers, slots, i, 0) == Order(controllers[..i], slots)
    ensures Seen(controllers, slots, i, |slots|) == Order(controllers[..i + 1], slots)
  {
    assert controllers[..i + 1][..i] == controllers[..i];
  }

  lemma SeenStep(controllers: seq<string>, slots: seq<Slot>, i: nat, j: nat, optical: bool)
    requires i < |controllers| && j < |slots|
    ensures First(Seen(controllers, slots, i, j + 1), slots, optical) ==
            var before := First(Seen(controllers, slots, i, j), slots, optical);
            if before.Some? || slots[j].controller != controllers[i] then before
            else if Wanted(slots[j], optical) then Some(j) else None
  {
    var before := Seen(controllers, slots, i, j);
    if slots[j].controller == controllers[i] {
      FirstSnoc(before, j, slots, optical);
      assert Seen(controllers, slots, i, j + 1) == before + [j];
    } else {
      assert Seen(controllers, slots, i, j + 1) == before;
    }
  }

  lemma FirstSnoc(order: seq<nat>, j: nat, slots: seq<Slot>, optical: bool)
    requires j < |slots|
    ensures First(order + [j], slots, optical) ==
            var before := First(order, slots, optical);
            if before.Some? then before else if Wanted(slots[j], optical) then Some(j) else None
  {
    assert (order + [j])[..|order|] == order;
  }

  /** What the loops have come across by line `j` of controller `i`. */
  function Sighted(controllers: seq<string>, slots: seq<Slot>, i: nat, j: nat, optical: bool): Option<nat>
    requires i < |controllers| && j <= |slots|
    decreases i, j
  {
    if j == 0 then
      if i == 0 then None else Sighted(controllers, slots, i - 1, |slots|, optical)
    else
      var before := Sighted(controllers, slots, i, j - 1, optical);
      if before.Some? || slots[j - 1].controller != controllers[i] then before
      else if Wanted(slots[j - 1], optical) then Some(j - 1) else None
  }

  lemma SeenBefore(controllers: seq<string>, slots: seq<Slot>, i: nat)
    requires i < |controllers|
    ensures Seen(controllers, slots, i, 0) == if i == 0 then [] else Seen(controllers, slots, i - 1, |slots|)
  {
    SeenStart(controllers, slots, i);
    if i == 0 {
      assert controllers[..0] == [];
    } else {
      SeenStart(controllers, slots, i - 1);
    }
  }

  lemma {:induction false} SightedIsFirst(controllers: seq<string>, slots: seq<Slot>, i: nat, j: nat, optical: bool)
    requires i < |controllers| && j <= |slots|
    ensures Sighted(controllers, slots, i, j, optical) == First(Seen(controllers, slots, i, j), slots, optical)
    decreases i, j
  {
    if j == 0 {
      SeenBefore(controllers, slots, i);
      if i > 0 {
        SightedIsFirst(controllers, slots, i - 1, |slots|, optical);
      }
    } else {
      SightedIsFirst(controllers, slots, i, j - 1, optical);
      SeenStep(controllers, slots, i, j - 1, optical);
    }
  }

  lemma RunsThrough(controllers: seq<string>, slots: seq<Slot>)
    requires controllers != [] && Sighted(controllers, slots, |controllers| - 1, |slots|, true) == None
    ensures FindSlot(controllers, slots) == Sighted(controllers, slots, |controllers| - 1, |slots|, false)
  {
    var last := |controllers| - 1;
    SightedIsFirst(controllers, slots, last, |slots|, true);
    SightedIsFirst(controllers, slots, last, |slots|, false);
    SeenStart(controllers, slots, last);
    Whole(controllers);
  }

  /** What is found in a part of the order is found in the whole. */
  lemma {:induction false} FirstExtends(order: seq<nat>, more: seq<nat>, slots: seq<Slot>, optical: bool)
    requires First(order, slots, optical).Some?
    ensures First(order + more, slots, optical) == First(order, slots, optical)
  {
    if more == [] {
      assert order + more == order;
    } else {
      FirstExtends(order, more[..|more| - 1], slots, optical);
      LastOfConcat(order, more);
    }
  }

  lemma {:induction false} OfControllerGrows(name: string, slots: seq<Slot>, j: nat, upTo: nat)
    requires j <= upTo <= |slots|
    ensures OfController(name, slots, j) <= OfController(name, slots, upTo)
  {
    if j < upTo {
      OfControllerGrows(name, slots, j, upTo - 1);
    }
  }

  lemma {:induction false} OrderGrows(controllers: seq<string>, slots: seq<Slot>, i: nat)
    requires i <= |controllers|
    ensures Order(controllers[..i], slots) <= Order(controllers, slots)
  {
    if i == |controllers| {
      assert controllers[..i] == controllers;
    } else {
      var last := |controllers| - 1;
      OrderGrows(controllers[..last], slots, i);
      assert controllers[..last][..i] == controllers[..i];
    }
  }

  lemma SeenIsPrefix(controllers: seq<string>, slots: seq<Slot>, i: nat, j: nat)
    requires i < |controllers| && j <= |slots|
    ensures Seen(controllers, slots, i, j) <= Order(controllers, slots)
  {
    SeenStart(controllers, slots, i);
    OfControllerGrows(controllers[i], slots, j, |slots|);
    OrderGrows(controllers, slots, i + 1);
    assert Seen(controllers, slots, i, j) <= Seen(controllers, slots, i, |slots|);
  }

  lemma StopsEarly(controllers: seq<string>, slots: seq<Slot>, i: nat, j: nat)
    requires i < |controllers| && j < |slots|
    requires Sighted(controllers, slots, i, j + 1, true) == Some(j)
    ensures FindSlot(controllers, slots) == Some(j)
  {
    var here, order := Seen(controllers, slots, i, j + 1), Order(controllers, slots);
    SightedIsFirst(controllers, slots, i, j + 1, true);
    SeenIsPrefix(controllers, slots, i, j + 1);
    FirstOfPrefix(here, order, slots);
  }

  lemma FirstOfPrefix(here: seq<nat>, order: seq<nat>, slots: seq<Slot>)
    requires here <= order && First(here, slots, true).Some?
    ensures First(order, slots, true) == First(here, slots, true)
  {
    assert order == here + order[|here|..];
    FirstExtends(here, order[|here|..], slots, true);
  }

  lemma SightedNext(controllers: seq<string>, slots: seq<Slot>, i: nat, j: nat)
    requires i < |controllers| && j < |slots|
    ensures var (optical, free) := (Sighted(controllers, slots, i, j, true), Sighted(controllers, slots, i, j, false));
      if slots[j].controller != controllers[i]
      then Sighted(controllers, slots, i, j + 1, true) == optical && Sighted(controllers, slots, i, j + 1, false) == free
      else && (optical == None && IsOptical(slots[j]) ==> Sighted(controllers, slots, i, j + 1, true) == Some(j))
           && (optical == None && !IsOptical(slots[j]) ==> Sighted(controllers, slots, i, j + 1, true) == None)
           && (free == None && IsFreeIde(slots[j]) ==> Sighted(controllers, slots, i, j + 1, false) == Some(j))
           && (free != None || !IsFreeIde(slots[j]) ==> Sighted(controllers, slots, i, j + 1, false) == free)
  {
  }

  /** Two nested loops with an early return and a remembered candidate. */
  method SearchOpticalSlot(controllers: seq<string>, slots: seq<Slot>) returns (found: Option<nat>)
    ensures found == FindSlot(controllers, slots)
  {
    var free: Option<nat> := None;
    for i := 0 to |controllers|
      invariant i > 0 ==> Sighted(controllers, slots, i - 1, |slots|, true) == None
      invariant free == if i == 0 then None else Sighted(controllers, slots, i - 1, |slots|, false)
    {
      for j := 0 to |slots|
        invariant Sighted(controllers, slots, i, j, true) == None
        invariant free == Sighted(controllers, slots, i, j, false)
      {
        SightedNext(controllers, slots, i, j);
        if slots[j].controller == controllers[i] {
          if IsOptical(slots[j]) {
            StopsEarly(controllers, slots, i, j);
            return Some(j);
          }
          if slots[j].medium == "none" && free.None? && NamesIde(slots[j].controller) {
            free := Some(j);
          }
        }
      }
    }
    if controllers != [] {
      RunsThrough(controllers, slots);
    }
    return free;
  }

  // ---------------------------------------------------------------------
  // What the search finds
  // ---------------------------------------------------------------------

  lemma {:induction false} OfControllerMembers(name: string, slots: seq<Slot>, upTo: nat)
    requires upTo <= |slots|
    ensures forall j :: j in OfController(name, slots, upTo) <==> 0 <= j < upTo && slots[j].controller == name
  {
    if upTo == 0 {
    } else {
      OfControllerMembers(name, slots, upTo - 1);
    }
  }

  lemma {:induction false} OrderMembers(controllers: seq<string>, slots: seq<Slot>)
    ensures forall j :: j in Order(controllers, slots) <==> 0 <= j < |slots| && slots[j].controller in controllers
  {
    if controllers == [] {
    } else {
      var last := |controllers| - 1;
      OrderMembers(controllers[..last], slots);
      OfControllerMembers(controllers[last], slots, |slots|);
      LastApart(controllers);
    }
  }

  /** A slot is found exactly when some listed controller has an optical slot or
      a free IDE slot; an optical one is preferred; a hard disk is never found. */
  lemma FoundExactly(controllers: seq<string>, slots: seq<Slot>)
    ensures FindSlot(controllers, slots).Some? <==>
            exists j :: 0 <= j < |slots| && slots[j].controller in controllers
                           && (IsOptical(slots[j]) || IsFreeIde(slots[j]))
    ensures FindSlot(controllers, slots).Some? ==>
              var found := FindSlot(controllers, slots).value;
              && found < |slots| && slots[found].controller in controllers && !HoldsDisk(slots[found])
              && (IsOptical(slots[found]) <==>
                  exists j :: 0 <= j < |slots| && slots[j].controller in controllers && IsOptical(slots[j]))
  {
    var order := Order(controllers, slots);
    OrderMembers(controllers, slots);
    FirstMeans(order, slots, true);
    FirstMeans(order, slots, false);
    forall j | 0 <= j < |slots| && slots[j].controller in controllers
      ensures exists k :: 0 <= k < |order| && order[k] == j
    {
      assert j in order;
    }
  }

  /** Looking through the controllers as listed, and through the slots of each as
      listed, no slot of the kind comes earlier. */
  ghost predicate Earliest(controllers: seq<string>, slots: seq<Slot>, found: nat, optical: bool, i: nat)
  {
    && i < |controllers| && found < |slots| && slots[found].controller == controllers[i]
    && Wanted(slots[found], optical)
    && (forall j :: 0 <= j < |slots| && Wanted(slots[j], optical) ==> slots[j].controller !in controllers[..i])
    && (forall j :: 0 <= j < found && Wanted(slots[j], optical) ==> slots[j].controller != controllers[i])
  }

  lemma {:induction false} FirstOfBoth(a: seq<nat>, b: seq<nat>, slots: seq<Slot>, optical: bool)
    ensures First(a + b, slots, optical) ==
            if First(a, slots, optical).Some? then First(a, slots, optical) else First(b, slots, optical)
  {
    if b == [] {
      assert a + b == a;
    } else {
      FirstOfBoth(a, b[..|b| - 1], slots, optical);
      LastOfConcat(a, b);
    }
  }

  ghost predicate NoneBelow(name: string, slots: seq<Slot>, upTo: nat, optical: bool)
  {
    upTo <= |slots| && forall j :: 0 <= j < upTo && Wanted(slots[j], optical) ==> slots[j].controller != name
  }

  lemma {:induction false} FirstOfController(name: string, slots: seq<Slot>, upTo: nat, optical: bool)
    requires upTo <= |slots|
    ensures var r := First(OfController(name, slots, upTo), slots, optical);
      if r.Some?
      then && r.value < upTo && slots[r.value].controller == name && Wanted(slots[r.value], optical)
           && NoneBelow(name, slots, r.value, optical)
      else NoneBelow(name, slots, upTo, optical)
  {
    if upTo == 0 {
    } else {
      FirstOfController(name, slots, upTo - 1, optical);
      if slots[upTo - 1].controller == name {
        FirstSnoc(OfController(name, slots, upTo - 1), upTo - 1, slots, optical);
      } else {
        var order := OfController(name, slots, upTo - 1);
        assert order + [] == order;
      }
    }
  }

  lemma {:induction false} FirstIsEarliest(controllers: seq<string>, slots: seq<Slot>, optical: bool) returns (i: nat)
    ensures var r := First(Order(controllers, slots), slots, optical);
      if r.Some? then Earliest(controllers, slots, r.value, optical, i)
      else forall j :: 0 <= j < |slots| && Wanted(slots[j], optical) ==> slots[j].controller !in controllers
  {
    i := 0;
    if controllers == [] {
    } else {
      var last := |controllers| - 1;
      var front := controllers[..last];
      i := FirstIsEarliest(front, slots, optical);
      FirstOfBoth(Order(front, slots), OfController(controllers[last], slots, |slots|), slots, optical);
      FirstOfController(controllers[last], slots, |slots|, optical);
      LastApart(controllers);
      if First(Order(front, slots), slots, optical).Some? {
        assert front[..i] == controllers[..i];
      } else {
        i := last;
      }
    }
  }

  /** The slot found is the earliest optical one, or the earliest free IDE slot
      where there is no optical one. */
  lemma FoundIsEarliest(controllers: seq<string>, slots: seq<Slot>) returns (i: nat)
    ensures var r := FindSlot(controllers, slots);
      r.Some? ==> r.value < |slots| && Earliest(controllers, slots, r.value, IsOptical(slots[r.value]), i)
  {
    i := FirstIsEarliest(controllers, slots, true);
    if First(Order(controllers, slots), slots, true).None? {
      i := FirstIsEarliest(controllers, slots, false);
    }
  }

  // ---------------------------------------------------------------------
  // Attaching and ejecting, over any run
  // ---------------------------------------------------------------------

  /** Insert an image, or eject; the command may fail and have taken effect, or
      not. */
  datatype Action = Attach(iso: string, effective: bool) | Eject(effective: bool)

  function Act(controllers: seq<string>, slots: seq<Slot>, a: Action): (after: seq<Slot>)
  {
    var found := FindSlot(controllers, slots);
    if found.None? || found.value >= |slots| || !a.effective then slots
    else slots[found.value := slots[found.value].(medium := if a.Attach? then a.iso else "emptydrive")]
  }

  function Run(controllers: seq<string>, slots: seq<Slot>, actions: seq<Action>): seq<Slot>
  {
    if actions == [] then slots
    else Act(controllers, Run(controllers, slots, actions[..|actions| - 1]), actions[|actions| - 1])
  }

  lemma {:induction false} OrderIgnoresMedia(controllers: seq<string>, a: seq<Slot>, b: seq<Slot>)
    requires |a| == |b| && forall j :: 0 <= j < |a| ==> a[j].controller == b[j].controller
    ensures Order(controllers, a) == Order(controllers, b)
  {
    if controllers == [] {
    } else {
      var last := |controllers| - 1;
      OrderIgnoresMedia(controllers[..last], a, b);
      OfControllerIgnoresMedia(controllers[last], a, b, |a|);
    }
  }

  lemma {:induction false} OfControllerIgnoresMedia(name: string, a: seq<Slot>, b: seq<Slot>, upTo: nat)
    requires |a| == |b| && upTo <= |a| && forall j :: 0 <= j < |a| ==> a[j].controller == b[j].controller
    ensures OfController(name, a, upTo) == OfController(name, b, upTo)
  {
    if upTo == 0 {
    } else {
      OfControllerIgnoresMedia(name, a, b, upTo - 1);
    }
  }

  /** Once the slot found holds an optical medium, it is the first such slot. */
  lemma {:induction false} FilledSlotIsFirst(order: seq<nat>, slots: seq<Slot>, found: nat, filled: seq<Slot>)
    requires forall k :: 0 <= k < |order| ==> order[k] < |slots|
    requires found < |slots| && found in order && |filled| == |slots| && IsOptical(filled[found])
    requires forall j :: 0 <= j < |slots| && j != found ==> filled[j] == slots[j]
    requires First(order, slots, true) == Some(found) || First(order, slots, true) == None
    ensures First(order, filled, true) == Some(found)
  {
    var last := |order| - 1;
    var front := order[..last];
    if found in front {
      assert First(front, slots, true) == Some(found) || First(front, slots, true) == None;
      FilledSlotIsFirst(front, slots, found, filled);
    } else {
      assert order[last] == found;
      StillNone(front, slots, found, filled);
    }
  }

  lemma {:induction false} StillNone(order: seq<nat>, slots: seq<Slot>, found: nat, filled: seq<Slot>)
    requires forall k :: 0 <= k < |order| ==> order[k] < |slots|
    requires found < |slots| && found !in order && |filled| == |slots|
    requires forall j :: 0 <= j < |slots| && j != found ==> filled[j] == slots[j]
    ensures First(order, filled, true) == First(order, slots, true)
  {
    if order == [] {
    } else {
      StillNone(order[..|order| - 1], slots, found, filled);
      assert order[|order| - 1] in order;
    }
  }

  lemma ActKeepsSlot(controllers: seq<string>, slots: seq<Slot>, a: Action)
    requires a.Attach? ==> IsIso(a.iso)
    ensures var after := Act(controllers, slots, a);
      && FindSlot(controllers, after) == FindSlot(controllers, slots)
      && |after| == |slots|
      && forall j :: 0 <= j < |slots| ==>
           after[j] == slots[j].(medium := after[j].medium) &&
           (FindSlot(controllers, slots) != Some(j) ==> after[j] == slots[j])
  {
    var found := FindSlot(controllers, slots);
    var after := Act(controllers, slots, a);
    FoundExactly(controllers, slots);
    if after != slots {
      OrderIgnoresMedia(controllers, slots, after);
      FirstMeans(Order(controllers, slots), slots, true);
      FirstMeans(Order(controllers, slots), slots, false);
      FilledSlotIsFirst(Order(controllers, slots), slots, found.value, after);
    }
  }

  /** Over any run of inserting images and ejecting: the slot that was found is
      found again, or still none is; no other slot changes; and in particular
      every hard disk stays where it is. */
  lemma {:induction false} SlotIsStable(controllers: seq<string>, slots: seq<Slot>, actions: seq<Action>)
    requires forall i :: 0 <= i < |actions| && actions[i].Attach? ==> IsIso(actions[i].iso)
    ensures var after := Run(controllers, slots, actions);
      && FindSlot(controllers, after) == FindSlot(controllers, slots)
      && |after| == |slots|
      && (forall j :: 0 <= j < |slots| && FindSlot(controllers, slots) != Some(j) ==> after[j] == slots[j])
      && (forall j :: 0 <= j < |slots| && HoldsDisk(slots[j]) ==> after[j] == slots[j])
  {
    if actions != [] {
      var last := |actions| - 1;
      SlotIsStable(controllers, slots, actions[..last]);
      ActKeepsSlot(controllers, Run(controllers, slots, actions[..last]), actions[last]);
    }
    FoundExactly(controllers, slots);
  }
}
