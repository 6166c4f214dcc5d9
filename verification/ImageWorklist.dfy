/** The worklist of the image writer (compiler/image_writer.cc TryAssignBinSlot, FindInternedString, ProcessWorkStack
    and the traversal of CalculateNewObjectOffsets): every object that is reached gets a slot in an image, strings are
    interned, and references are rewritten to the interned strings. */
module ImageWorklist {
  import opened ImageObjects

  datatype Kind = Str(content: string) | Other

  /** The heap before the image is written.  `homes` gives the images of classes and dex caches; other objects go where
      they are met.  `bootStrings` are the strings of the boot image that the runtime has interned; they only count for
      an app image, and only then are the references of boot image objects visited. */
  datatype Heap = Heap(kinds: seq<Kind>, refs: seq<seq<Ref>>, boot: set<ObjectId>, homes: map<ObjectId, nat>,
                       images: nat, appImage: bool, bootStrings: map<string, ObjectId>)
  {
    ghost predicate Valid() {
      && |refs| == |kinds| && images > 0
      && (forall o, f :: 0 <= o < |refs| && 0 <= f < |refs[o]| && refs[o][f].To? ==> refs[o][f].target < |kinds|)
      && (forall o :: o in homes ==> homes[o] < images)
      && (forall c :: c in bootStrings ==>
            bootStrings[c] in boot && bootStrings[c] < |kinds| && kinds[bootStrings[c]] == Str(c))
    }

    /** Whether a reference leads to an object that the image must hold. */
    predicate Outside(r: Ref) { r.To? && r.target !in boot }

    predicate InBootTable(c: string) { appImage && c in bootStrings }
  }

  /** A set that holds the roots and whatever its own members refer to. */
  ghost predicate Closed(h: Heap, roots: seq<Ref>, s: set<ObjectId>)
    requires h.Valid()
  {
    && (forall i :: 0 <= i < |roots| && h.Outside(roots[i]) ==> roots[i].target in s)
    && (forall o, f :: o in s && o < |h.refs| && 0 <= f < |h.refs[o]| && h.Outside(h.refs[o][f]) ==>
          h.refs[o][f].target in s)
    && (h.appImage ==>
          forall o, f :: o in h.boot && o < |h.refs| && 0 <= f < |h.refs[o]| && h.Outside(h.refs[o][f]) ==>
            h.refs[o][f].target in s)
  }

  /** An object is reachable if no closed set can leave it out. */
  ghost predicate Reachable(h: Heap, roots: seq<Ref>, o: ObjectId)
    requires h.Valid()
  {
    forall s: set<ObjectId> :: Closed(h, roots, s) ==> o in s
  }

  /** What a reference becomes: strings outside the boot image are replaced by the interned string of their content. */
  function Canon(h: Heap, table: map<string, ObjectId>, r: Ref): Ref
    requires r.To? ==> r.target < |h.kinds|
  {
    if !h.Outside(r) then r
    else match h.kinds[r.target]
         case Other => r
         case Str(c) => if c in table then To(table[c]) else if h.InBootTable(c) then To(h.bootStrings[c]) else r
  }

  /** The intern tables of the images, taken together: `home` tells which one a content is in. */
  ghost predicate InternTables(h: Heap, interns: seq<map<string, ObjectId>>, table: map<string, ObjectId>,
                               home: map<string, nat>)
  {
    && |interns| == h.images && table.Keys == home.Keys
    && (forall k, c :: 0 <= k < |interns| && c in interns[k] ==>
          c in table && home[c] == k && interns[k][c] == table[c])
    && (forall c :: c in table ==> home[c] < |interns| && c in interns[home[c]])
  }

  /** An interned string has its content, is not in the boot image's table too, and has a slot in the image of its
      table. */
  ghost predicate EntryOk(h: Heap, slots: map<ObjectId, nat>, table: map<string, ObjectId>, home: map<string, nat>,
                          c: string)
    requires c in table && c in home
  {
    && table[c] < |h.kinds| && h.kinds[table[c]] == Str(c) && !h.InBootTable(c)
    && table[c] in slots && slots[table[c]] == home[c]
  }

  /** An object with a slot lies outside the boot image and is reachable; if it is a string, its content is interned. */
  ghost predicate SlotOk(h: Heap, roots: seq<Ref>, slots: map<ObjectId, nat>, table: map<string, ObjectId>, o: ObjectId)
    requires h.Valid() && o in slots
  {
    && o < |h.kinds| && o !in h.boot && Reachable(h, roots, o) && slots[o] < h.images
    && (o in h.homes && h.kinds[o].Other? ==> slots[o] == h.homes[o])
    && (h.kinds[o].Str? ==> h.kinds[o].content in table || h.InBootTable(h.kinds[o].content))
  }

  ghost predicate Assigned(h: Heap, roots: seq<Ref>, slots: map<ObjectId, nat>, order: seq<ObjectId>,
                           table: map<string, ObjectId>, home: map<string, nat>)
    requires h.Valid()
  {
    && table.Keys == home.Keys
    && (forall c {:trigger EntryOk(h, slots, table, home, c)} :: c in table ==> EntryOk(h, slots, table, home, c))
    && (forall o {:trigger SlotOk(h, roots, slots, table, o)} :: o in slots ==> SlotOk(h, roots, slots, table, o))
    && Distinct(order) && (forall o :: o in slots <==> o in order)
  }

  /** The reference needs no more work. */
  predicate Settled(h: Heap, slots: map<ObjectId, nat>, r: Ref) { h.Outside(r) ==> r.target in slots }

  /** A slot once assigned stays. */
  ghost predicate SlotKept(slots: map<ObjectId, nat>, slots': map<ObjectId, nat>, o: ObjectId) {
    o in slots ==> o in slots' && slots'[o] == slots[o]
  }

  /** An interned string stays, and a new one was not interned anywhere. */
  ghost predicate EntryKept(h: Heap, table: map<string, ObjectId>, table': map<string, ObjectId>, c: string) {
    if c in table then c in table' && table'[c] == table[c] else c in table' ==> !h.InBootTable(c)
  }

  ghost predicate Grows(h: Heap, slots: map<ObjectId, nat>, table: map<string, ObjectId>, slots': map<ObjectId, nat>,
                        table': map<string, ObjectId>)
  {
    && (forall o {:trigger SlotKept(slots, slots', o)} :: SlotKept(slots, slots', o))
    && (forall c {:trigger EntryKept(h, table, table', c)} :: EntryKept(h, table, table', c))
  }

  lemma GrowsMore(h: Heap, slots: map<ObjectId, nat>, table: map<string, ObjectId>, slots': map<ObjectId, nat>,
                  table': map<string, ObjectId>, slots'': map<ObjectId, nat>, table'': map<string, ObjectId>)
    requires Grows(h, slots, table, slots', table') && Grows(h, slots', table', slots'', table'')
    ensures Grows(h, slots, table, slots'', table'')
  {
    forall o {:trigger SlotKept(slots, slots'', o)} ensures SlotKept(slots, slots'', o) {
      assert SlotKept(slots, slots', o) && SlotKept(slots', slots'', o);
    }
    forall c {:trigger EntryKept(h, table, table'', c)} ensures EntryKept(h, table, table'', c) {
      assert EntryKept(h, table, table', c) && EntryKept(h, table', table'', c);
    }
  }

  lemma GrowsKeys(h: Heap, slots: map<ObjectId, nat>, table: map<string, ObjectId>, slots': map<ObjectId, nat>,
                  table': map<string, ObjectId>)
    requires Grows(h, slots, table, slots', table')
    ensures slots.Keys <= slots'.Keys
  {
    forall o | o in slots ensures o in slots' { assert SlotKept(slots, slots', o); }
  }

  /** A settled reference keeps its meaning. */
  lemma CanonStays(h: Heap, roots: seq<Ref>, slots: map<ObjectId, nat>, order: seq<ObjectId>,
                   table: map<string, ObjectId>, home: map<string, nat>, slots': map<ObjectId, nat>,
                   table': map<string, ObjectId>, r: Ref)
    requires h.Valid() && Assigned(h, roots, slots, order, table, home) && Grows(h, slots, table, slots', table')
    requires r.To? ==> r.target < |h.kinds|
    requires Settled(h, slots, r)
    ensures Settled(h, slots', r) && Canon(h, table', r) == Canon(h, table, r)
  {
    if h.Outside(r) {
      assert SlotOk(h, roots, slots, table, r.target) && SlotKept(slots, slots', r.target);
      if h.kinds[r.target].Str? { assert EntryKept(h, table, table', h.kinds[r.target].content); }
    }
  }

  lemma RootReachable(h: Heap, roots: seq<Ref>, i: nat)
    requires h.Valid() && i < |roots| && h.Outside(roots[i])
    ensures Reachable(h, roots, roots[i].target)
  {
  }

  lemma StepReachable(h: Heap, roots: seq<Ref>, o: ObjectId, f: nat)
    requires h.Valid() && o < |h.refs| && f < |h.refs[o]| && h.Outside(h.refs[o][f])
    requires Reachable(h, roots, o) || (h.appImage && o in h.boot)
    ensures Reachable(h, roots, h.refs[o][f].target)
  {
  }

  /** oat_index_map_, the order in which slots were assigned, the intern tables and the work stack. */
  datatype Work = Work(slots: map<ObjectId, nat>, order: seq<ObjectId>, interns: seq<map<string, ObjectId>>,
                       stack: seq<(ObjectId, nat)>)

  /** FindInternedString: the tables of all images, then, for an app image, the boot image. */
  method FindInternedString(h: Heap, interns: seq<map<string, ObjectId>>, c: string,
                            ghost table: map<string, ObjectId>, ghost home: map<string, nat>)
    returns (found: Ref)
    requires InternTables(h, interns, table, home)
    ensures found == if c in table then To(table[c]) else if h.InBootTable(c) then To(h.bootStrings[c]) else Null
  {
    for k := 0 to |interns|
      invariant c in table ==> k <= home[c]
    {
      if c in interns[k] {
        return To(interns[k][c]);
      }
    }
    if h.appImage && c in h.bootStrings {
      return To(h.bootStrings[c]);
    }
    return Null;
  }

  /** A new slot for an object whose content, if it is a string, is interned already. */
  lemma AssignSlot(h: Heap, roots: seq<Ref>, slots: map<ObjectId, nat>, order: seq<ObjectId>,
                   table: map<string, ObjectId>, home: map<string, nat>, o: ObjectId, oat: nat)
    requires h.Valid() && Assigned(h, roots, slots, order, table, home) && o !in slots
    requires o < |h.kinds| && o !in h.boot && Reachable(h, roots, o) && oat < h.images
    requires o in h.homes && h.kinds[o].Other? ==> oat == h.homes[o]
    requires h.kinds[o].Str? ==> h.kinds[o].content in table || h.InBootTable(h.kinds[o].content)
    ensures Assigned(h, roots, slots[o := oat], order + [o], table, home)
    ensures Grows(h, slots, table, slots[o := oat], table)
  {
    var slots' := slots[o := oat];
    forall c {:trigger EntryOk(h, slots', table, home, c)} | c in table ensures EntryOk(h, slots', table, home, c) {
      assert EntryOk(h, slots, table, home, c);
    }
    forall p {:trigger SlotOk(h, roots, slots', table, p)} | p in slots' ensures SlotOk(h, roots, slots', table, p) {
      if p != o { assert SlotOk(h, roots, slots, table, p); }
    }
  }

  /** A new slot for the first string of its content, which becomes the interned one. */
  lemma InternString(h: Heap, roots: seq<Ref>, slots: map<ObjectId, nat>, order: seq<ObjectId>,
                     table: map<string, ObjectId>, home: map<string, nat>, o: ObjectId, oat: nat, c: string)
    requires h.Valid() && Assigned(h, roots, slots, order, table, home) && o !in slots
    requires o < |h.kinds| && o !in h.boot && Reachable(h, roots, o) && oat < h.images
    requires h.kinds[o] == Str(c) && c !in table && !h.InBootTable(c)
    ensures Assigned(h, roots, slots[o := oat], order + [o], table[c := o], home[c := oat])
    ensures Grows(h, slots, table, slots[o := oat], table[c := o])
  {
    var slots', table', home' := slots[o := oat], table[c := o], home[c := oat];
    forall d {:trigger EntryOk(h, slots', table', home', d)} | d in table'
      ensures EntryOk(h, slots', table', home', d)
    {
      if d != c { assert EntryOk(h, slots, table, home, d); }
    }
    forall p {:trigger SlotOk(h, roots, slots', table', p)} | p in slots' ensures SlotOk(h, roots, slots', table', p) {
      if p != o { assert SlotOk(h, roots, slots, table, p); }
    }
  }

  lemma InternTable(h: Heap, interns: seq<map<string, ObjectId>>, table: map<string, ObjectId>, home: map<string, nat>,
                    c: string, o: ObjectId, oat: nat, grown: map<string, ObjectId>)
    requires InternTables(h, interns, table, home) && oat < |interns| && c !in table && grown == interns[oat][c := o]
    ensures InternTables(h, interns[oat := grown], table[c := o], home[c := oat])
  {
  }

  /** The image of an object that is first met from image `oat`. */
  ghost function ImageOf(h: Heap, o: ObjectId, oat: nat): nat
    requires o < |h.kinds|
  {
    if h.kinds[o].Other? && o in h.homes then h.homes[o] else oat
  }

  /** The new slots are those of objects that these references lead to, from image `oat`. */
  ghost predicate Found(h: Heap, slots: map<ObjectId, nat>, slots': map<ObjectId, nat>, from: seq<Ref>, oat: nat) {
    forall o {:trigger o in slots'} :: o in slots' && o !in slots ==>
      o < |h.kinds| && To(o) in from && slots'[o] == ImageOf(h, o, oat)
  }

  lemma FoundMore(h: Heap, slots: map<ObjectId, nat>, slots': map<ObjectId, nat>, slots'': map<ObjectId, nat>,
                  from: seq<Ref>, oat: nat, t: ObjectId)
    requires Found(h, slots, slots', from, oat) && slots''.Keys <= slots'.Keys + {t}
    requires forall o {:trigger SlotKept(slots', slots'', o)} :: SlotKept(slots', slots'', o)
    requires t in slots' || t !in slots'' || (t < |h.kinds| && To(t) in from && slots''[t] == ImageOf(h, t, oat))
    ensures Found(h, slots, slots'', from, oat)
  {
    forall o | o in slots'' && o !in slots ensures o < |h.kinds| && To(o) in from && slots''[o] == ImageOf(h, o, oat) {
      assert SlotKept(slots', slots'', o);
    }
  }

  /** An object that has no image of its own is in that of a root that leads to it or of an object that refers to it; an
      app image takes what the boot image refers to. */
  ghost predicate Grounded(h: Heap, roots: seq<Ref>, oats: seq<nat>, slots: map<ObjectId, nat>, o: ObjectId)
    requires o in slots
  {
    || (o < |h.kinds| && h.kinds[o].Other? && o in h.homes && slots[o] == h.homes[o])
    || (exists i :: 0 <= i < |roots| && i < |oats| && roots[i] == To(o) && slots[o] == oats[i])
    || (exists p {:trigger p in slots} :: p in slots && p < |h.refs| && To(o) in h.refs[p] && slots[o] == slots[p])
    || (h.appImage && slots[o] == 0
        && exists b {:trigger b in h.boot} :: b in h.boot && b < |h.refs| && To(o) in h.refs[b])
  }

  ghost predicate AllGrounded(h: Heap, roots: seq<Ref>, oats: seq<nat>, slots: map<ObjectId, nat>) {
    forall o {:trigger Grounded(h, roots, oats, slots, o)} :: o in slots ==> Grounded(h, roots, oats, slots, o)
  }

  /** What is found from an object with a slot, or from the boot image, is grounded. */
  lemma GroundedMore(h: Heap, roots: seq<Ref>, oats: seq<nat>, slots: map<ObjectId, nat>, slots': map<ObjectId, nat>,
                     p: ObjectId, oat: nat)
    requires AllGrounded(h, roots, oats, slots) && p < |h.refs| && Found(h, slots, slots', h.refs[p], oat)
    requires forall o {:trigger SlotKept(slots, slots', o)} :: SlotKept(slots, slots', o)
    requires (p in slots && slots[p] == oat) || (h.appImage && p in h.boot && oat == 0)
    ensures AllGrounded(h, roots, oats, slots')
  {
    forall o {:trigger Grounded(h, roots, oats, slots', o)} | o in slots' ensures Grounded(h, roots, oats, slots', o) {
      assert SlotKept(slots, slots', o) && SlotKept(slots, slots', p);
      if o in slots {
        assert Grounded(h, roots, oats, slots, o);
        if q :| q in slots && q < |h.refs| && To(o) in h.refs[q] && slots[o] == slots[q] {
          assert SlotKept(slots, slots', q);
        }
      }
    }
  }

  lemma GroundedRoot(h: Heap, roots: seq<Ref>, oats: seq<nat>, slots: map<ObjectId, nat>, slots': map<ObjectId, nat>,
                     i: nat)
    requires AllGrounded(h, roots, oats, slots) && i < |roots| && i < |oats|
    requires Found(h, slots, slots', [roots[i]], oats[i])
    requires forall o {:trigger SlotKept(slots, slots', o)} :: SlotKept(slots, slots', o)
    ensures AllGrounded(h, roots, oats, slots')
  {
    forall o {:trigger Grounded(h, roots, oats, slots', o)} | o in slots' ensures Grounded(h, roots, oats, slots', o) {
      assert SlotKept(slots, slots', o);
      if o in slots {
        assert Grounded(h, roots, oats, slots, o);
        if q :| q in slots && q < |h.refs| && To(o) in h.refs[q] && slots[o] == slots[q] {
          assert SlotKept(slots, slots', q);
        }
      }
    }
  }

  /** The part of TryAssignBinSlot for an object without a slot. */
  method AssignBinSlot(h: Heap, w: Work, o: ObjectId, oat: nat, ghost roots: seq<Ref>,
                       ghost table: map<string, ObjectId>, ghost home: map<string, nat>)
    returns (w': Work, ghost table': map<string, ObjectId>, ghost home': map<string, nat>)
    requires h.Valid() && oat < h.images && o < |h.kinds| && o !in h.boot && o !in w.slots
    requires InternTables(h, w.interns, table, home) && Assigned(h, roots, w.slots, w.order, table, home)
    requires Reachable(h, roots, o)
    ensures InternTables(h, w'.interns, table', home') && Assigned(h, roots, w'.slots, w'.order, table', home')
    ensures Grows(h, w.slots, table, w'.slots, table')
    ensures w'.slots.Keys == w.slots.Keys + {o} && w'.order == w.order + [o] && w'.stack == w.stack + [(o, w'.slots[o])]
    ensures w'.slots[o] == ImageOf(h, o, oat)
  {
    var interns, index := w.interns, oat;
    table', home' := table, home;
    match h.kinds[o] {
      case Str(c) =>
        var interned := FindInternedString(h, interns, c, table, home);
        if interned.Null? {
          InternString(h, roots, w.slots, w.order, table, home, o, oat, c);
          var grown: map<string, ObjectId> := interns[oat][c := o];
          InternTable(h, interns, table, home, c, o, oat, grown);
          interns := interns[oat := grown];
          table', home' := table[c := o], home[c := oat];
        } else {
          AssignSlot(h, roots, w.slots, w.order, table, home, o, oat);
        }
      case Other =>
        if o in h.homes {
          index := h.homes[o];
        }
        AssignSlot(h, roots, w.slots, w.order, table, home, o, index);
    }
    w' := Work(w.slots[o := index], w.order + [o], interns, w.stack + [(o, index)]);
  }

  /** TryAssignBinSlot. */
  method TryAssignBinSlot(h: Heap, w: Work, r: Ref, oat: nat, ghost roots: seq<Ref>,
                          ghost table: map<string, ObjectId>, ghost home: map<string, nat>)
    returns (w': Work, out: Ref, ghost table': map<string, ObjectId>, ghost home': map<string, nat>)
    requires h.Valid() && oat < h.images && (r.To? ==> r.target < |h.kinds|)
    requires InternTables(h, w.interns, table, home) && Assigned(h, roots, w.slots, w.order, table, home)
    requires h.Outside(r) ==> Reachable(h, roots, r.target)
    ensures InternTables(h, w'.interns, table', home') && Assigned(h, roots, w'.slots, w'.order, table', home')
    ensures Grows(h, w.slots, table, w'.slots, table')
    ensures Settled(h, w'.slots, r) && out == Canon(h, table', r)
    ensures if h.Outside(r) && r.target !in w.slots
            then && w'.slots.Keys == w.slots.Keys + {r.target} && w'.order == w.order + [r.target]
                 && w'.slots[r.target] == ImageOf(h, r.target, oat)
                 && w'.stack == w.stack + [(r.target, w'.slots[r.target])]
            else w' == w
  {
    w', out, table', home' := w, r, table, home;
    if r.Null? || r.target in h.boot {
      return;
    }
    var o := r.target;
    if o !in w.slots {
      w', table', home' := AssignBinSlot(h, w, o, oat, roots, table, home);
    }
    assert SlotOk(h, roots, w'.slots, table', o);
    if h.kinds[o].Str? {
      out := FindInternedString(h, w'.interns, h.kinds[o].content, table', home');
    }
  }

  /** Object o has been visited: its references are rewritten, and they all lead somewhere in the images. */
  ghost predicate Visited(h: Heap, refs: seq<seq<Ref>>, slots: map<ObjectId, nat>, table: map<string, ObjectId>,
                          o: ObjectId)
    requires h.Valid()
  {
    && o < |refs| && o < |h.refs| && |refs[o]| == |h.refs[o]|
    && forall f {:trigger FieldDone(h, refs[o], slots, table, o, f)} :: 0 <= f < |refs[o]| ==>
         FieldDone(h, refs[o], slots, table, o, f)
  }

  ghost predicate FieldDone(h: Heap, fields: seq<Ref>, slots: map<ObjectId, nat>, table: map<string, ObjectId>,
                            o: ObjectId, f: nat)
    requires h.Valid() && o < |h.refs| && f < |h.refs[o]| && f < |fields|
  {
    fields[f] == Canon(h, table, h.refs[o][f]) && Settled(h, slots, h.refs[o][f])
  }

  /** Visited objects stay so. */
  lemma VisitedStays(h: Heap, roots: seq<Ref>, refs: seq<seq<Ref>>, slots: map<ObjectId, nat>, order: seq<ObjectId>,
                     table: map<string, ObjectId>, home: map<string, nat>, slots': map<ObjectId, nat>,
                     table': map<string, ObjectId>, o: ObjectId)
    requires h.Valid() && Assigned(h, roots, slots, order, table, home) && Grows(h, slots, table, slots', table')
    requires Visited(h, refs, slots, table, o)
    ensures Visited(h, refs, slots', table', o)
  {
    forall f {:trigger FieldDone(h, refs[o], slots', table', o, f)} | 0 <= f < |refs[o]|
      ensures FieldDone(h, refs[o], slots', table', o, f)
    {
      assert FieldDone(h, refs[o], slots, table, o, f);
      CanonStays(h, roots, slots, order, table, home, slots', table', h.refs[o][f]);
    }
  }

  ghost function Objects(stack: seq<(ObjectId, nat)>): set<ObjectId> { set i | 0 <= i < |stack| :: stack[i].0 }

  /** Everything with a slot has either been visited or waits on the stack, once and with its image. */
  ghost predicate Pending(slots: map<ObjectId, nat>, stack: seq<(ObjectId, nat)>, visited: set<ObjectId>) {
    && slots.Keys == visited + Objects(stack) && visited !! Objects(stack)
    && (forall i, j :: 0 <= i < j < |stack| ==> stack[i].0 != stack[j].0)
    && (forall i :: 0 <= i < |stack| ==> stack[i].0 in slots && stack[i].1 == slots[stack[i].0])
  }

  lemma PushPending(slots: map<ObjectId, nat>, stack: seq<(ObjectId, nat)>, visited: set<ObjectId>, o: ObjectId,
                    slots': map<ObjectId, nat>)
    requires Pending(slots, stack, visited) && o !in slots && slots'.Keys == slots.Keys + {o}
    requires forall p {:trigger SlotKept(slots, slots', p)} :: SlotKept(slots, slots', p)
    ensures Pending(slots', stack + [(o, slots'[o])], visited)
  {
    var stack' := stack + [(o, slots'[o])];
    forall i | 0 <= i < |stack| ensures stack[i].0 in slots' && slots'[stack[i].0] == slots[stack[i].0] {
      assert SlotKept(slots, slots', stack[i].0);
    }
    assert forall i :: 0 <= i < |stack| ==> stack[i].0 in Objects(stack);
    assert Objects(stack') == Objects(stack) + {o} by {
      assert stack'[|stack|].0 == o;
      assert forall i :: 0 <= i < |stack| ==> stack'[i] == stack[i];
    }
  }

  lemma PopPending(slots: map<ObjectId, nat>, stack: seq<(ObjectId, nat)>, visited: set<ObjectId>)
    requires Pending(slots, stack, visited) && |stack| > 0
    ensures Pending(slots, stack[..|stack| - 1], visited + {stack[|stack| - 1].0})
    ensures stack[|stack| - 1].0 !in visited && stack[|stack| - 1].0 in slots
  {
    var n := |stack| - 1;
    var rest := stack[..n];
    assert stack[n].0 in Objects(stack);
    assert Objects(stack) == Objects(rest) + {stack[n].0} by {
      assert forall i :: 0 <= i < n ==> rest[i] == stack[i];
    }
    assert stack[n].0 !in Objects(rest);
  }

  /** The first n fields of object o are done. */
  ghost predicate FieldsDone(h: Heap, fields: seq<Ref>, slots: map<ObjectId, nat>, table: map<string, ObjectId>,
                             o: ObjectId, n: nat)
    requires h.Valid() && o < |h.refs| && n <= |h.refs[o]| && n <= |fields|
  {
    forall f {:trigger FieldDone(h, fields, slots, table, o, f)} :: 0 <= f < n ==>
      FieldDone(h, fields, slots, table, o, f)
  }

  /** One more field is done, and the others stay done. */
  lemma NextField(h: Heap, roots: seq<Ref>, fields: seq<Ref>, slots: map<ObjectId, nat>, order: seq<ObjectId>,
                  table: map<string, ObjectId>, home: map<string, nat>, slots': map<ObjectId, nat>,
                  table': map<string, ObjectId>, o: ObjectId, n: nat, out: Ref)
    requires h.Valid() && Assigned(h, roots, slots, order, table, home) && Grows(h, slots, table, slots', table')
    requires o < |h.refs| && n < |h.refs[o]| == |fields| && FieldsDone(h, fields, slots, table, o, n)
    requires out == Canon(h, table', h.refs[o][n]) && Settled(h, slots', h.refs[o][n])
    ensures FieldsDone(h, fields[n := out], slots', table', o, n + 1)
  {
    var fields' := fields[n := out];
    forall f {:trigger FieldDone(h, fields', slots', table', o, f)} | 0 <= f < n + 1
      ensures FieldDone(h, fields', slots', table', o, f)
    {
      if f < n {
        assert FieldDone(h, fields, slots, table, o, f);
        CanonStays(h, roots, slots, order, table, home, slots', table', h.refs[o][f]);
      }
    }
  }

  /** VisitReferences with the VisitReferencesVisitor: every field of o is rewritten in turn. */
  method VisitReferences(h: Heap, refs: seq<seq<Ref>>, w: Work, o: ObjectId, oat: nat, ghost roots: seq<Ref>,
                         ghost table: map<string, ObjectId>, ghost home: map<string, nat>, ghost visited: set<ObjectId>)
    returns (fields: seq<Ref>, w': Work, ghost table': map<string, ObjectId>, ghost home': map<string, nat>)
    requires h.Valid() && o < |h.refs| == |refs| && refs[o] == h.refs[o] && oat < h.images
    requires Reachable(h, roots, o) || (h.appImage && o in h.boot)
    requires InternTables(h, w.interns, table, home) && Assigned(h, roots, w.slots, w.order, table, home)
    requires Pending(w.slots, w.stack, visited)
    ensures InternTables(h, w'.interns, table', home') && Assigned(h, roots, w'.slots, w'.order, table', home')
    ensures Grows(h, w.slots, table, w'.slots, table') && Pending(w'.slots, w'.stack, visited)
    ensures |fields| == |h.refs[o]| && FieldsDone(h, fields, w'.slots, table', o, |fields|)
    ensures w'.slots.Keys == w.slots.Keys ==> w' == w
    ensures Found(h, w.slots, w'.slots, h.refs[o], oat)
  {
    fields, w', table', home' := refs[o], w, table, home;
    for f := 0 to |fields|
      invariant |fields| == |h.refs[o]| && forall j :: f <= j < |fields| ==> fields[j] == h.refs[o][j]
      invariant InternTables(h, w'.interns, table', home') && Assigned(h, roots, w'.slots, w'.order, table', home')
      invariant Grows(h, w.slots, table, w'.slots, table') && Pending(w'.slots, w'.stack, visited)
      invariant FieldsDone(h, fields, w'.slots, table', o, f)
      invariant w'.slots.Keys == w.slots.Keys ==> w' == w
      invariant Found(h, w.slots, w'.slots, h.refs[o], oat)
    {
      var r := fields[f];
      if h.Outside(r) { StepReachable(h, roots, o, f); }
      ghost var before, tableBefore, homeBefore := w', table', home';
      var out;
      w', out, table', home' := TryAssignBinSlot(h, w', r, oat, roots, table', home');
      if w' != before {
        PushPending(before.slots, before.stack, visited, r.target, w'.slots);
        FoundMore(h, w.slots, before.slots, w'.slots, h.refs[o], oat, r.target);
      }
      GrowsKeys(h, w.slots, table, before.slots, tableBefore);
      GrowsMore(h, w.slots, table, before.slots, tableBefore, w'.slots, table');
      NextField(h, roots, fields, before.slots, before.order, tableBefore, homeBefore, w'.slots, table', o, f, out);
      fields := fields[f := out];
    }
  }

  /** The objects in `done` are visited; the others are as they were. */
  ghost predicate AllVisited(h: Heap, refs: seq<seq<Ref>>, slots: map<ObjectId, nat>, table: map<string, ObjectId>,
                             done: set<ObjectId>)
    requires h.Valid()
  {
    && |refs| == |h.refs|
    && (forall o {:trigger Visited(h, refs, slots, table, o)} :: o in done ==> Visited(h, refs, slots, table, o))
    && (forall o :: 0 <= o < |refs| && o !in done ==> refs[o] == h.refs[o])
  }

  /** Visiting one more object. */
  lemma VisitOne(h: Heap, roots: seq<Ref>, refs: seq<seq<Ref>>, slots: map<ObjectId, nat>, order: seq<ObjectId>,
                 table: map<string, ObjectId>, home: map<string, nat>, slots': map<ObjectId, nat>,
                 table': map<string, ObjectId>, done: set<ObjectId>, o: ObjectId, fields: seq<Ref>)
    requires h.Valid() && Assigned(h, roots, slots, order, table, home) && Grows(h, slots, table, slots', table')
    requires AllVisited(h, refs, slots, table, done) && o < |h.refs| && o !in done
    requires |fields| == |h.refs[o]| && FieldsDone(h, fields, slots', table', o, |fields|)
    ensures AllVisited(h, refs[o := fields], slots', table', done + {o})
  {
    var refs' := refs[o := fields];
    forall p {:trigger Visited(h, refs', slots', table', p)} | p in done + {o}
      ensures Visited(h, refs', slots', table', p)
    {
      if p == o {
        forall f {:trigger FieldDone(h, refs'[p], slots', table', p, f)} | 0 <= f < |fields|
          ensures FieldDone(h, refs'[p], slots', table', p, f)
        {
          assert FieldDone(h, fields, slots', table', o, f);
        }
      } else {
        assert Visited(h, refs, slots, table, p);
        VisitedStays(h, roots, refs, slots, order, table, home, slots', table', p);
        SameFields(h, refs, refs', slots', table', p);
      }
    }
  }

  lemma SameFields(h: Heap, refs: seq<seq<Ref>>, refs': seq<seq<Ref>>, slots: map<ObjectId, nat>,
                   table: map<string, ObjectId>, o: ObjectId)
    requires h.Valid() && Visited(h, refs, slots, table, o) && o < |refs'| && refs'[o] == refs[o]
    ensures Visited(h, refs', slots, table, o)
  {
    forall f {:trigger FieldDone(h, refs'[o], slots, table, o, f)} | 0 <= f < |refs'[o]|
      ensures FieldDone(h, refs'[o], slots, table, o, f)
    {
      assert FieldDone(h, refs[o], slots, table, o, f);
    }
  }

  /** Visiting an object and storing its rewritten references. */
  method VisitObject(h: Heap, refs: seq<seq<Ref>>, w: Work, o: ObjectId, oat: nat, ghost roots: seq<Ref>,
                     ghost table: map<string, ObjectId>, ghost home: map<string, nat>, ghost visited: set<ObjectId>,
                     ghost done: set<ObjectId>)
    returns (refs': seq<seq<Ref>>, w': Work, ghost table': map<string, ObjectId>, ghost home': map<string, nat>)
    requires h.Valid() && o < |h.refs| && o !in done && oat < h.images
    requires Reachable(h, roots, o) || (h.appImage && o in h.boot)
    requires InternTables(h, w.interns, table, home) && Assigned(h, roots, w.slots, w.order, table, home)
    requires Pending(w.slots, w.stack, visited) && AllVisited(h, refs, w.slots, table, done)
    ensures InternTables(h, w'.interns, table', home') && Assigned(h, roots, w'.slots, w'.order, table', home')
    ensures Grows(h, w.slots, table, w'.slots, table') && Pending(w'.slots, w'.stack, visited)
    ensures AllVisited(h, refs', w'.slots, table', done + {o})
    ensures w'.slots.Keys == w.slots.Keys ==> w' == w
    ensures Found(h, w.slots, w'.slots, h.refs[o], oat)
  {
    var fields;
    fields, w', table', home' := VisitReferences(h, refs, w, o, oat, roots, table, home, visited);
    VisitOne(h, roots, refs, w.slots, w.order, table, home, w'.slots, table', done, o, fields);
    refs' := refs[o := fields];
  }

  ghost function Unassigned(h: Heap, slots: map<ObjectId, nat>): set<ObjectId> {
    set o | 0 <= o < |h.kinds| && o !in slots
  }

  lemma FewerUnassigned(h: Heap, roots: seq<Ref>, slots: map<ObjectId, nat>, slots': map<ObjectId, nat>,
                        order: seq<ObjectId>, table: map<string, ObjectId>, home: map<string, nat>)
    requires h.Valid() && Assigned(h, roots, slots', order, table, home) && slots.Keys <= slots'.Keys
    ensures slots'.Keys == slots.Keys || Unassigned(h, slots') < Unassigned(h, slots)
  {
    if slots'.Keys != slots.Keys {
      var o :| o in slots'.Keys && o !in slots.Keys;
      assert SlotOk(h, roots, slots', table, o);
      assert o in Unassigned(h, slots);
    }
  }

  /** ProcessWorkStack.  `bootDone` are the visited objects of the boot image. */
  method ProcessWorkStack(h: Heap, refs: seq<seq<Ref>>, w: Work, ghost roots: seq<Ref>,
                          ghost table: map<string, ObjectId>, ghost home: map<string, nat>,
                          ghost visited: set<ObjectId>, ghost bootDone: set<ObjectId>, ghost oats: seq<nat>)
    returns (refs': seq<seq<Ref>>, w': Work, ghost table': map<string, ObjectId>, ghost home': map<string, nat>)
    requires h.Valid() && bootDone <= h.boot
    requires InternTables(h, w.interns, table, home) && Assigned(h, roots, w.slots, w.order, table, home)
    requires Pending(w.slots, w.stack, visited) && AllVisited(h, refs, w.slots, table, visited + bootDone)
    requires AllGrounded(h, roots, oats, w.slots)
    ensures InternTables(h, w'.interns, table', home') && Assigned(h, roots, w'.slots, w'.order, table', home')
    ensures Grows(h, w.slots, table, w'.slots, table')
    ensures w'.stack == [] && AllVisited(h, refs', w'.slots, table', w'.slots.Keys + bootDone)
    ensures AllGrounded(h, roots, oats, w'.slots)
  {
    refs', w', table', home' := refs, w, table, home;
    ghost var seen := visited;
    while w'.stack != []
      invariant InternTables(h, w'.interns, table', home') && Assigned(h, roots, w'.slots, w'.order, table', home')
      invariant Grows(h, w.slots, table, w'.slots, table')
      invariant Pending(w'.slots, w'.stack, seen) && AllVisited(h, refs', w'.slots, table', seen + bootDone)
      invariant AllGrounded(h, roots, oats, w'.slots)
      decreases Unassigned(h, w'.slots), |w'.stack|
    {
      var (o, oat) := w'.stack[|w'.stack| - 1];
      PopPending(w'.slots, w'.stack, seen);
      ghost var slots, tableBefore := w'.slots, table';
      assert SlotOk(h, roots, slots, table', o);
      w' := w'.(stack := w'.stack[..|w'.stack| - 1]);
      ghost var done := seen + bootDone;
      seen := seen + {o};
      refs', w', table', home' := VisitObject(h, refs', w', o, oat, roots, table', home', seen, done);
      assert done + {o} == seen + bootDone;
      GroundedMore(h, roots, oats, slots, w'.slots, o, oat);
      GrowsMore(h, w.slots, table, slots, tableBefore, w'.slots, table');
      GrowsKeys(h, slots, tableBefore, w'.slots, table');
      FewerUnassigned(h, roots, slots, w'.slots, w'.order, table', home');
    }
  }

  function NoWork(h: Heap): Work { Work(map[], [], seq(h.images, _ => map[]), []) }

  lemma NoWorkOk(h: Heap, roots: seq<Ref>)
    requires h.Valid()
    ensures InternTables(h, NoWork(h).interns, map[], map[]) && Assigned(h, roots, map[], [], map[], map[])
    ensures Pending(map[], [], {})
  {
  }

  /** The loops over the interned strings of the dex files and over the roots of the garbage collector. */
  method AssignRoots(h: Heap, roots: seq<Ref>, oats: seq<nat>)
    returns (w: Work, ghost table: map<string, ObjectId>, ghost home: map<string, nat>)
    requires h.Valid() && |oats| == |roots| && forall i :: 0 <= i < |oats| ==> oats[i] < h.images
    requires forall i :: 0 <= i < |roots| && roots[i].To? ==> roots[i].target < |h.kinds|
    ensures InternTables(h, w.interns, table, home) && Assigned(h, roots, w.slots, w.order, table, home)
    ensures Pending(w.slots, w.stack, {}) && forall i :: 0 <= i < |roots| ==> Settled(h, w.slots, roots[i])
    ensures AllGrounded(h, roots, oats, w.slots)
  {
    w, table, home := NoWork(h), map[], map[];
    NoWorkOk(h, roots);
    for i := 0 to |roots|
      invariant InternTables(h, w.interns, table, home) && Assigned(h, roots, w.slots, w.order, table, home)
      invariant Pending(w.slots, w.stack, {}) && forall j :: 0 <= j < i ==> Settled(h, w.slots, roots[j])
      invariant AllGrounded(h, roots, oats, w.slots)
    {
      if h.Outside(roots[i]) { RootReachable(h, roots, i); }
      ghost var before, tableBefore := w, table;
      var out;
      w, out, table, home := TryAssignBinSlot(h, w, roots[i], oats[i], roots, table, home);
      if w != before {
        PushPending(before.slots, before.stack, {}, roots[i].target, w.slots);
        GroundedRoot(h, roots, oats, before.slots, w.slots, i);
      }
      GrowsKeys(h, before.slots, tableBefore, w.slots, table);
    }
  }

  lemma BootHasNoSlots(h: Heap, roots: seq<Ref>, slots: map<ObjectId, nat>, order: seq<ObjectId>,
                       table: map<string, ObjectId>, home: map<string, nat>)
    requires h.Valid() && Assigned(h, roots, slots, order, table, home)
    ensures slots.Keys !! h.boot
  {
    forall o | o in slots ensures o !in h.boot { assert SlotOk(h, roots, slots, table, o); }
  }

  /** The loop over the objects of the boot image, for an app image. */
  method VisitBootImage(h: Heap, refs: seq<seq<Ref>>, w: Work, bootObjects: seq<ObjectId>, ghost roots: seq<Ref>,
                        ghost table: map<string, ObjectId>, ghost home: map<string, nat>, ghost oats: seq<nat>)
    returns (refs': seq<seq<Ref>>, w': Work, ghost table': map<string, ObjectId>, ghost home': map<string, nat>)
    requires h.Valid() && h.appImage && w.stack == []
    requires Distinct(bootObjects)
    requires forall o :: o in bootObjects <==> o in h.boot && o < |h.refs|
    requires InternTables(h, w.interns, table, home) && Assigned(h, roots, w.slots, w.order, table, home)
    requires AllVisited(h, refs, w.slots, table, w.slots.Keys) && AllGrounded(h, roots, oats, w.slots)
    ensures InternTables(h, w'.interns, table', home') && Assigned(h, roots, w'.slots, w'.order, table', home')
    ensures Grows(h, w.slots, table, w'.slots, table') && Pending(w'.slots, w'.stack, w.slots.Keys)
    ensures AllVisited(h, refs', w'.slots, table', w.slots.Keys + Visits(bootObjects, |bootObjects|))
    ensures AllGrounded(h, roots, oats, w'.slots)
  {
    refs', w', table', home' := refs, w, table, home;
    ghost var done := w.slots.Keys;
    BootHasNoSlots(h, roots, w.slots, w.order, table, home);
    for i := 0 to |bootObjects|
      invariant InternTables(h, w'.interns, table', home') && Assigned(h, roots, w'.slots, w'.order, table', home')
      invariant Grows(h, w.slots, table, w'.slots, table') && Pending(w'.slots, w'.stack, w.slots.Keys)
      invariant done == w.slots.Keys + Visits(bootObjects, i)
      invariant AllVisited(h, refs', w'.slots, table', done) && AllGrounded(h, roots, oats, w'.slots)
    {
      var o := bootObjects[i];
      assert o in bootObjects;
      ghost var slots, tableBefore := w'.slots, table';
      refs', w', table', home' := VisitObject(h, refs', w', o, 0, roots, table', home', w.slots.Keys, done);
      GrowsMore(h, w.slots, table, slots, tableBefore, w'.slots, table');
      GroundedMore(h, roots, oats, slots, w'.slots, o, 0);
      done := done + {o};
    }
  }

  /** The first n of a list of objects. */
  ghost function Visits(objects: seq<ObjectId>, n: nat): set<ObjectId>
    requires n <= |objects|
  {
    set i | 0 <= i < n :: objects[i]
  }

  lemma VisitsAll(objects: seq<ObjectId>)
    ensures forall o :: o in Visits(objects, |objects|) <==> o in objects
  {
    forall o | o in objects ensures o in Visits(objects, |objects|) {
      var i :| 0 <= i < |objects| && objects[i] == o;
      assert objects[i] in Visits(objects, |objects|);
    }
  }

  /** At the end, the objects with slots are closed, so they are all the reachable ones and no others. */
  lemma SlotsAreReachable(h: Heap, roots: seq<Ref>, refs: seq<seq<Ref>>, slots: map<ObjectId, nat>,
                          order: seq<ObjectId>, table: map<string, ObjectId>, home: map<string, nat>,
                          bootDone: set<ObjectId>, o: ObjectId)
    requires h.Valid() && Assigned(h, roots, slots, order, table, home)
    requires forall i :: 0 <= i < |roots| ==> Settled(h, slots, roots[i])
    requires AllVisited(h, refs, slots, table, slots.Keys + bootDone)
    requires h.appImage ==> forall b :: b in h.boot && b < |h.refs| ==> b in bootDone
    ensures o in slots <==> Reachable(h, roots, o)
  {
    forall p, f | && (p in slots || (h.appImage && p in h.boot))
                  && p < |h.refs| && 0 <= f < |h.refs[p]| && h.Outside(h.refs[p][f])
      ensures h.refs[p][f].target in slots.Keys
    {
      assert Visited(h, refs, slots, table, p);
      assert FieldDone(h, refs[p], slots, table, p, f);
    }
    assert Closed(h, roots, slots.Keys);
    if o in slots { assert SlotOk(h, roots, slots, table, o); }
  }

  /** A rewritten reference is null or leads into the boot image or to an object with a slot. */
  lemma RewrittenIsSettled(h: Heap, roots: seq<Ref>, refs: seq<seq<Ref>>, slots: map<ObjectId, nat>,
                           order: seq<ObjectId>, table: map<string, ObjectId>, home: map<string, nat>,
                           done: set<ObjectId>, o: ObjectId, f: nat)
    requires h.Valid() && Assigned(h, roots, slots, order, table, home) && AllVisited(h, refs, slots, table, done)
    requires o in done && o < |refs| && f < |refs[o]|
    ensures Settled(h, slots, refs[o][f])
  {
    assert Visited(h, refs, slots, table, o);
    assert FieldDone(h, refs[o], slots, table, o, f);
    var r := h.refs[o][f];
    if h.Outside(r) {
      assert SlotOk(h, roots, slots, table, r.target);
      if h.kinds[r.target].Str? && h.kinds[r.target].content in table {
        assert EntryOk(h, slots, table, home, h.kinds[r.target].content);
      }
    }
  }

  /** Two references to strings of the same content outside the boot image become the same reference. */
  lemma EqualStringsMeet(h: Heap, roots: seq<Ref>, refs: seq<seq<Ref>>, slots: map<ObjectId, nat>,
                         order: seq<ObjectId>, table: map<string, ObjectId>, home: map<string, nat>,
                         done: set<ObjectId>, o: ObjectId, f: nat, p: ObjectId, g: nat)
    requires h.Valid() && Assigned(h, roots, slots, order, table, home) && AllVisited(h, refs, slots, table, done)
    requires o in done && o < |h.refs| && f < |h.refs[o]| && h.Outside(h.refs[o][f])
    requires p in done && p < |h.refs| && g < |h.refs[p]| && h.Outside(h.refs[p][g])
    requires h.kinds[h.refs[o][f].target].Str? && h.kinds[h.refs[o][f].target] == h.kinds[h.refs[p][g].target]
    ensures f < |refs[o]| && g < |refs[p]| && refs[o][f] == refs[p][g]
  {
    assert Visited(h, refs, slots, table, o) && Visited(h, refs, slots, table, p);
    assert FieldDone(h, refs[o], slots, table, o, f) && FieldDone(h, refs[p], slots, table, p, g);
    assert SlotOk(h, roots, slots, table, h.refs[o][f].target);
  }

  /** An object is a root, or an app image finds it in the boot image. */
  ghost predicate Starts(h: Heap, roots: seq<Ref>, o: ObjectId) {
    || To(o) in roots
    || (h.appImage && exists b {:trigger b in h.boot} :: b in h.boot && b < |h.refs| && To(o) in h.refs[b])
  }

  /** A chain of references outside the boot image. */
  ghost predicate IsPath(h: Heap, roots: seq<Ref>, p: seq<ObjectId>) {
    && |p| > 0 && p[|p| - 1] !in h.boot
    && (if |p| == 1 then Starts(h, roots, p[0])
        else && IsPath(h, roots, p[..|p| - 1])
             && p[|p| - 2] < |h.refs| && To(p[|p| - 1]) in h.refs[p[|p| - 2]])
  }

  ghost predicate HasPath(h: Heap, roots: seq<Ref>, o: ObjectId) {
    exists p :: IsPath(h, roots, p) && p[|p| - 1] == o
  }

  lemma {:induction false} PathInClosed(h: Heap, roots: seq<Ref>, p: seq<ObjectId>, s: set<ObjectId>)
    requires h.Valid() && IsPath(h, roots, p) && Closed(h, roots, s)
    ensures p[|p| - 1] in s
    decreases |p|
  {
    if |p| == 1 {
    } else {
      PathInClosed(h, roots, p[..|p| - 1], s);
      var o := p[|p| - 2];
      var f :| 0 <= f < |h.refs[o]| && h.refs[o][f] == To(p[|p| - 1]);
    }
  }

  lemma ExtendPath(h: Heap, roots: seq<Ref>, o: ObjectId, t: ObjectId)
    requires HasPath(h, roots, o) && t !in h.boot && o < |h.refs| && To(t) in h.refs[o]
    ensures HasPath(h, roots, t)
  {
    var p :| IsPath(h, roots, p) && p[|p| - 1] == o;
    var q := p + [t];
    assert q[..|q| - 1] == p;
    assert IsPath(h, roots, q);
  }

  lemma StartPath(h: Heap, roots: seq<Ref>, o: ObjectId)
    requires Starts(h, roots, o) && o !in h.boot
    ensures HasPath(h, roots, o)
  {
    assert IsPath(h, roots, [o]);
  }

  /** Reachable objects are those at the end of a path. */
  lemma ReachableIffPath(h: Heap, roots: seq<Ref>, o: ObjectId)
    requires h.Valid() && forall i :: 0 <= i < |roots| && roots[i].To? ==> roots[i].target < |h.kinds|
    ensures Reachable(h, roots, o) <==> HasPath(h, roots, o)
  {
    if HasPath(h, roots, o) {
      var p :| IsPath(h, roots, p) && p[|p| - 1] == o;
      forall s: set<ObjectId> | Closed(h, roots, s) ensures o in s { PathInClosed(h, roots, p, s); }
    }
    var s := set x | 0 <= x < |h.kinds| && HasPath(h, roots, x);
    forall i | 0 <= i < |roots| && h.Outside(roots[i]) ensures roots[i].target in s {
      StartPath(h, roots, roots[i].target);
    }
    forall x, f | x in s && x < |h.refs| && 0 <= f < |h.refs[x]| && h.Outside(h.refs[x][f])
      ensures h.refs[x][f].target in s
    {
      ExtendPath(h, roots, x, h.refs[x][f].target);
    }
    forall b, f | h.appImage && b in h.boot && b < |h.refs| && 0 <= f < |h.refs[b]| && h.Outside(h.refs[b][f])
      ensures h.refs[b][f].target in s
    {
      StartPath(h, roots, h.refs[b][f].target);
    }
    assert Closed(h, roots, s);
  }

  /** The outcome of the traversal: exactly the reachable objects have slots, each once; their references, and for an
      app image those of the boot image, are rewritten. */
  ghost predicate Traversed(h: Heap, roots: seq<Ref>, refs: seq<seq<Ref>>, w: Work, table: map<string, ObjectId>,
                            home: map<string, nat>)
    requires h.Valid()
  {
    && w.stack == [] && InternTables(h, w.interns, table, home) && Assigned(h, roots, w.slots, w.order, table, home)
    && (forall o {:trigger Reachable(h, roots, o)} :: o in w.slots <==> Reachable(h, roots, o))
    && AllVisited(h, refs, w.slots, table,
                  w.slots.Keys + if h.appImage then (set o | o in h.boot && o < |h.refs|) else {})
  }

  /** What the traversal has done to field f of object o.  If the object was visited, a reference to a string outside
      the boot image leads to a string of the same content afterwards: that of the boot image if an app image finds one
      there, and otherwise one with a slot.  All other references are as they were. */
  lemma RewrittenKeepsMeaning(h: Heap, roots: seq<Ref>, refs: seq<seq<Ref>>, w: Work, table: map<string, ObjectId>,
                              home: map<string, nat>, o: ObjectId, f: nat)
    requires h.Valid() && Traversed(h, roots, refs, w, table, home) && o < |h.refs| && f < |h.refs[o]|
    ensures |refs| == |h.refs| && |refs[o]| == |h.refs[o]|
    ensures var r, r' := h.refs[o][f], refs[o][f];
            if (Reachable(h, roots, o) || (h.appImage && o in h.boot))
               && r.To? && r.target !in h.boot && h.kinds[r.target].Str?
            then && r'.To? && r'.target < |h.kinds| && h.kinds[r'.target] == h.kinds[r.target]
                 && (r'.target in h.boot <==> h.appImage && h.kinds[r.target].content in h.bootStrings)
                 && (r'.target !in h.boot ==> Reachable(h, roots, r'.target))
            else r' == r
  {
    assert o in w.slots <==> Reachable(h, roots, o);
    BootHasNoSlots(h, roots, w.slots, w.order, table, home);
    if o in w.slots || (h.appImage && o in h.boot) {
      assert Visited(h, refs, w.slots, table, o);
      assert FieldDone(h, refs[o], w.slots, table, o, f);
      var r := h.refs[o][f];
      if h.Outside(r) && h.kinds[r.target].Str? {
        assert SlotOk(h, roots, w.slots, table, r.target);
        var c := h.kinds[r.target].content;
        if c in table {
          assert EntryOk(h, w.slots, table, home, c);
          assert Reachable(h, roots, table[c]);
        }
      }
    }
  }

  class ImageWriter {
    const heap: Heap
    var refs: seq<seq<Ref>>
    var work: Work
    /** The intern tables taken together, and the images of their entries. */
    ghost var table: map<string, ObjectId>
    ghost var home: map<string, nat>

    constructor (heap: Heap)
      ensures this.heap == heap && refs == heap.refs
    {
      this.heap := heap;
      refs, work := heap.refs, NoWork(heap);
      table, home := map[], map[];
    }

    /** The traversal of CalculateNewObjectOffsets. */
    method Traverse(roots: seq<Ref>, oats: seq<nat>, bootObjects: seq<ObjectId>)
      requires heap.Valid() && refs == heap.refs
      requires |oats| == |roots| && forall i :: 0 <= i < |oats| ==> oats[i] < heap.images
      requires forall i :: 0 <= i < |roots| && roots[i].To? ==> roots[i].target < |heap.kinds|
      requires Distinct(bootObjects)
      requires forall o :: o in bootObjects <==> o in heap.boot && o < |heap.refs|
      modifies this
      ensures Traversed(heap, roots, refs, work, table, home) && AllGrounded(heap, roots, oats, work.slots)
    {
      var w, t, m := AssignRoots(heap, roots, oats);
      ghost var slots, table := w.slots, t;
      var r;
      r, w, t, m := ProcessWorkStack(heap, refs, w, roots, t, m, {}, {}, oats);
      ghost var bootDone: set<ObjectId> := {};
      if heap.appImage {
        ghost var processed, processedTable := w.slots, t;
        r, w, t, m := VisitBootImage(heap, r, w, bootObjects, roots, t, m, oats);
        GrowsMore(heap, slots, table, processed, processedTable, w.slots, t);
        ghost var booted, bootedTable := w.slots, t;
        bootDone := set o | o in heap.boot && o < |heap.refs|;
        VisitsAll(bootObjects);
        assert Visits(bootObjects, |bootObjects|) == bootDone;
        r, w, t, m := ProcessWorkStack(heap, r, w, roots, t, m, processed.Keys, bootDone, oats);
        GrowsMore(heap, slots, table, booted, bootedTable, w.slots, t);
      }
      GrowsKeys(heap, slots, table, w.slots, t);
      forall o {:trigger Reachable(heap, roots, o)} ensures o in w.slots <==> Reachable(heap, roots, o) {
        SlotsAreReachable(heap, roots, r, w.slots, w.order, t, m, bootDone, o);
      }
      refs, work, this.table, home := r, w, t, m;
    }

    /** EnsureBinSlotAssignedCallback for every live object: `ok` is the outcome of the CHECKs. */
    method EnsureBinSlotsAssigned(live: seq<ObjectId>, ghost roots: seq<Ref>) returns (ok: bool)
      requires heap.Valid() && Traversed(heap, roots, refs, work, table, home)
      ensures ok <==> forall o :: o in live && o !in heap.boot ==> Reachable(heap, roots, o)
    {
      for i := 0 to |live|
        invariant forall o :: o in live[..i] && o !in heap.boot ==> Reachable(heap, roots, o)
      {
        if live[i] !in heap.boot && live[i] !in work.slots {
          assert !Reachable(heap, roots, live[i]);
          return false;
        }
      }
      return true;
    }
  }
}
