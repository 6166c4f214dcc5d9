/** The app-image class pruner (compiler/image_writer.cc, PruneAppImageClass and KeepClass).

    A class is pruned when a directly unwanted class can be reached from it without entering the
    boot image.  The code decides this by a depth-first search whose cycle cut-offs return a
    provisional `false`, and remembers only some of those answers. */
module ClassPruner {

  type ClassId = nat

  /** A possibly-null class pointer. */
  datatype Ref = Null | To(id: ClassId)

  /** The value of a static reference field: null, a class object, or an instance of a class. */
  datatype StaticValue = NullValue | ClassValue(c: ClassId) | Instance(of: ClassId)

  datatype Klass = Klass(inBootImage: bool, bootLoader: bool, imageClass: bool, statusError: bool,
                         interfaces: seq<Ref>, objectArray: bool, component: Ref, resolved: bool,
                         statics: seq<StaticValue>, superClass: Ref)

  type Graph = map<ClassId, Klass>

  function ClassOf(v: StaticValue): Ref {
    match v
    case NullValue => Null
    case ClassValue(c) => To(c)
    case Instance(c) => To(c)
  }

  function StaticClasses(k: Klass): seq<Ref> {
    if k.resolved then seq(|k.statics|, i requires 0 <= i < |k.statics| => ClassOf(k.statics[i])) else []
  }

  /** Every class pointer the pruner may follow out of k. */
  function Successors(k: Klass): seq<Ref> {
    k.interfaces + (if k.objectArray then [k.component] else []) + StaticClasses(k) + [k.superClass]
  }

  predicate InGraph(g: Graph, r: Ref) {
    r.To? ==> r.id in g
  }

  /** Class pointers stay inside the graph. */
  ghost predicate Closed(g: Graph) {
    forall c, r :: c in g && r in Successors(g[c]) ==> InGraph(g, r)
  }

  predicate DirectlyUnwanted(k: Klass) {
    k.bootLoader || !k.imageClass || k.statusError
  }

  /** A walk along class pointers that never touches the boot image. */
  ghost predicate IsWalk(g: Graph, p: seq<ClassId>) {
    && |p| > 0
    && (forall i :: 0 <= i < |p| ==> p[i] in g && !g[p[i]].inBootImage)
    && (forall i :: 0 <= i < |p| - 1 ==> To(p[i + 1]) in Successors(g[p[i]]))
  }

  /** p leads from c to a directly unwanted class and touches nothing in `avoid`. */
  ghost predicate Witness(g: Graph, c: ClassId, avoid: set<ClassId>, p: seq<ClassId>) {
    && IsWalk(g, p)
    && p[0] == c
    && DirectlyUnwanted(g[p[|p| - 1]])
    && (forall i :: 0 <= i < |p| ==> p[i] !in avoid)
  }

  ghost predicate PrunableAvoiding(g: Graph, r: Ref, avoid: set<ClassId>) {
    r.To? && exists p :: Witness(g, r.id, avoid, p)
  }

  /** The specification: an unwanted class is reachable from r outside the boot image. */
  ghost predicate Prunable(g: Graph, r: Ref) {
    PrunableAvoiding(g, r, {})
  }

  /** What KeepClass promises. */
  ghost predicate Kept(g: Graph, appImage: bool, r: Ref)
    requires InGraph(g, r)
  {
    && r.To?
    && if appImage
       then g[r.id].inBootImage || (g[r.id].imageClass && !Prunable(g, r))
       else g[r.id].imageClass
  }

  lemma AvoidingIsPrunable(g: Graph, r: Ref, avoid: set<ClassId>)
    requires PrunableAvoiding(g, r, avoid)
    ensures Prunable(g, r)
  {
    var p :| Witness(g, r.id, avoid, p);
    assert Witness(g, r.id, {}, p);
  }

  /** Going one step back along a class pointer keeps a class prunable. */
  lemma PrependStep(g: Graph, c: ClassId, s: Ref, avoid: set<ClassId>)
    requires c in g && !g[c].inBootImage && c !in avoid
    requires s in Successors(g[c]) && PrunableAvoiding(g, s, avoid)
    ensures PrunableAvoiding(g, To(c), avoid)
  {
    var p :| Witness(g, s.id, avoid, p);
    assert Witness(g, c, avoid, [c] + p);
  }

  /** The last place a walk visits its starting class. */
  lemma LastVisit(p: seq<ClassId>) returns (j: nat)
    requires |p| > 0
    ensures j < |p| && p[j] == p[0] && forall i :: j < i < |p| ==> p[i] != p[0]
  {
    j := |p| - 1;
    while p[j] != p[0]
      invariant j < |p| && forall i :: j < i < |p| ==> p[i] != p[0]
      decreases j
    {
      j := j - 1;
    }
  }

  /** A prunable class is unwanted itself or reaches an unwanted class without returning to itself:
      this is what makes the provisional `false` of a cycle cut-off harmless. */
  lemma FirstStep(g: Graph, c: ClassId, avoid: set<ClassId>)
    requires c in g && PrunableAvoiding(g, To(c), avoid) && !DirectlyUnwanted(g[c])
    ensures exists s :: s in Successors(g[c]) && PrunableAvoiding(g, s, avoid + {c})
  {
    var p :| Witness(g, c, avoid, p);
    var j := LastVisit(p);
    var tail := p[j + 1..];
    assert j != |p| - 1;
    assert Witness(g, tail[0], avoid + {c}, tail);
    assert To(p[j + 1]) in Successors(g[p[j]]);
    assert PrunableAvoiding(g, To(tail[0]), avoid + {c});
  }

  /** Where the pruner goes from k, field by field. */
  lemma SuccessorsAreFields(k: Klass, r: Ref)
    ensures r in Successors(k) <==>
              || r == k.superClass || r in k.interfaces || (k.objectArray && r == k.component)
              || (k.resolved && exists i :: 0 <= i < |k.statics| && match k.statics[i]
                                                                    case NullValue => r == Null
                                                                    case ClassValue(c) => r == To(c)
                                                                    case Instance(c) => r == To(c))
  {
    var statics := StaticClasses(k);
    if r in statics {
      var i :| 0 <= i < |statics| && statics[i] == r;
      assert r == ClassOf(k.statics[i]);
    }
    if i :| k.resolved && 0 <= i < |k.statics| && r == ClassOf(k.statics[i]) {
      assert statics[i] == r;
    }
  }

  /** A class pointer leads nowhere, into the boot image, or into s. */
  ghost predicate Leads(g: Graph, s: set<ClassId>, r: Ref) {
    r == Null || (r.id in g && (g[r.id].inBootImage || r.id in s))
  }

  /** The interfaces, the component, the superclass and the classes in the static fields of k are null, in the boot
      image or in s. */
  ghost predicate FieldsLead(g: Graph, s: set<ClassId>, k: Klass) {
    && Leads(g, s, k.superClass) && (forall i :: 0 <= i < |k.interfaces| ==> Leads(g, s, k.interfaces[i]))
    && (k.objectArray ==> Leads(g, s, k.component))
    && (k.resolved ==> forall i :: 0 <= i < |k.statics| ==> match k.statics[i]
                                                            case NullValue => true
                                                            case ClassValue(c) => Leads(g, s, To(c))
                                                            case Instance(c) => Leads(g, s, To(c)))
  }

  /** Classes outside the boot image that can be kept together: all are image classes, none is of the boot class loader
      or erroneous, and none refers to a class that is left out. */
  ghost predicate Keepable(g: Graph, s: set<ClassId>) {
    forall c :: c in s ==>
      && c in g && !g[c].inBootImage && !g[c].bootLoader && g[c].imageClass && !g[c].statusError
      && FieldsLead(g, s, g[c])
  }

  /** The fields lead where the successors do. */
  lemma SuccessorsLeadIff(g: Graph, s: set<ClassId>, k: Klass)
    ensures FieldsLead(g, s, k) <==> forall r :: r in Successors(k) ==> Leads(g, s, r)
  {
    forall r ensures r in Successors(k) ==> (FieldsLead(g, s, k) ==> Leads(g, s, r)) { SuccessorsAreFields(k, r); }
    SuccessorsAreFields(k, k.superClass);
    SuccessorsAreFields(k, k.component);
    forall i | 0 <= i < |k.interfaces| ensures k.interfaces[i] in Successors(k) {
      SuccessorsAreFields(k, k.interfaces[i]);
    }
    forall i | k.resolved && 0 <= i < |k.statics| ensures ClassOf(k.statics[i]) in Successors(k) {
      SuccessorsAreFields(k, ClassOf(k.statics[i]));
    }
  }

  /** The classes outside the boot image that are not prunable can be kept together. */
  lemma KeptIsKeepable(g: Graph)
    requires Closed(g)
    ensures Keepable(g, set c | c in g && !g[c].inBootImage && !Prunable(g, To(c)))
  {
    var s := set c | c in g && !g[c].inBootImage && !Prunable(g, To(c));
    forall c | c in s ensures !DirectlyUnwanted(g[c]) && FieldsLead(g, s, g[c]) {
      if DirectlyUnwanted(g[c]) { assert Witness(g, c, {}, [c]); }
      forall r | r in Successors(g[c]) ensures Leads(g, s, r) {
        assert InGraph(g, r);
        if r.To? && Prunable(g, r) { PrependStep(g, c, r, {}); }
      }
      SuccessorsLeadIff(g, s, g[c]);
    }
  }

  /** A walk cannot leave such a set. */
  lemma {:induction false} WalkStays(g: Graph, s: set<ClassId>, p: seq<ClassId>, i: nat)
    requires IsWalk(g, p) && Keepable(g, s) && p[0] in s && i < |p|
    ensures p[i] in s
  {
    if i == 0 {
    } else {
      WalkStays(g, s, p, i - 1);
      SuccessorsLeadIff(g, s, g[p[i - 1]]);
      assert Leads(g, s, To(p[i]));
    }
  }

  /** What KeepClass keeps for an app image, besides the boot image, is the largest set of classes that can be kept
      together.  For other images it is the set of image classes. */
  lemma KeptIffKeepable(g: Graph, c: ClassId)
    requires Closed(g) && c in g
    ensures Kept(g, true, To(c)) <==> g[c].inBootImage || exists s :: c in s && Keepable(g, s)
    ensures Kept(g, false, To(c)) <==> g[c].imageClass
    ensures !Kept(g, true, Null) && !Kept(g, false, Null)
  {
    var kept := set d | d in g && !g[d].inBootImage && !Prunable(g, To(d));
    KeptIsKeepable(g);
    if s :| c in s && Keepable(g, s) {
      if Prunable(g, To(c)) {
        var p :| Witness(g, c, {}, p);
        WalkStays(g, s, p, |p| - 1);
      }
    }
    assert c in kept ==> Keepable(g, kept);
  }

  /** A class that KeepClass leaves alone, or has put into the app image. */
  ghost predicate Stays(g: Graph, r: Ref) {
    InGraph(g, r) && (r == Null || g[r.id].inBootImage || Kept(g, true, r))
  }

  /** The kept set is closed: whatever a kept app class points to is null, in the boot image or kept. */
  lemma KeptIsClosed(g: Graph, c: ClassId)
    requires Closed(g) && c in g && !g[c].inBootImage && Kept(g, true, To(c))
    ensures !g[c].bootLoader && g[c].imageClass && !g[c].statusError
    ensures Stays(g, g[c].superClass)
    ensures forall i :: 0 <= i < |g[c].interfaces| ==> Stays(g, g[c].interfaces[i])
    ensures g[c].objectArray ==> Stays(g, g[c].component)
    ensures g[c].resolved ==>
              forall i :: 0 <= i < |g[c].statics| ==> match g[c].statics[i]
                                                      case NullValue => true
                                                      case ClassValue(d) => Stays(g, To(d))
                                                      case Instance(d) => Stays(g, To(d))
  {
    KeptIsKeepable(g);
    var kept := set d | d in g && !g[d].inBootImage && !Prunable(g, To(d));
    forall r | Leads(g, kept, r) ensures Stays(g, r) {
      if r.To? && !g[r.id].inBootImage { assert r.id in kept; }
    }
  }

  class Pruner {
    const graph: Graph
    const compileAppImage: bool
    /** prune_class_memo_ */
    var memo: map<ClassId, bool>
    /** The classes on the current recursion path. */
    var visited: set<ClassId>

    ghost predicate Valid()
      reads this
    {
      && Closed(graph)
      && forall c :: c in memo ==> c in graph && !graph[c].inBootImage && memo[c] == Prunable(graph, To(c))
    }

    constructor (graph: Graph, compileAppImage: bool)
      requires Closed(graph)
      ensures Valid() && this.graph == graph && this.compileAppImage == compileAppImage
      ensures memo == map[] && visited == {}
    {
      this.graph, this.compileAppImage := graph, compileAppImage;
      memo, visited := map[], {};
    }

    /** What a search from r with `path` on the recursion path may answer: `true` is always right,
        `false` only rules out walks that avoid the path, and a `false` that met no cycle is final. */
    ghost predicate Answers(r: Ref, path: set<ClassId>, result: bool, cyclic: bool) {
      && (result ==> Prunable(graph, r))
      && (!result ==> !PrunableAvoiding(graph, r, path))
      && (!result && !cyclic ==> !Prunable(graph, r))
    }

    ghost predicate AnswersAll(rs: seq<Ref>, path: set<ClassId>, result: bool, cyclic: bool) {
      && (result ==> exists r :: r in rs && Prunable(graph, r))
      && (!result ==> forall r :: r in rs ==> Answers(r, path, false, cyclic))
    }

    /** PruneAppImageClassInternal.  `early` and `early'` are *early_exit before and after the call. */
    method PruneInternal(klass: Ref, early: bool) returns (result: bool, early': bool)
      requires Valid() && InGraph(graph, klass)
      requires visited <= graph.Keys
      modifies this
      ensures Valid() && visited == old(visited)
      ensures early ==> early'
      ensures Answers(klass, visited, result, early')
      ensures visited == {} ==> result == Prunable(graph, klass)
      decreases graph.Keys - visited, 0
    {
      if klass == Null || graph[klass.id].inBootImage {
        return false, early;
      }
      var c := klass.id;
      if c in memo {
        if PrunableAvoiding(graph, klass, visited) { AvoidingIsPrunable(graph, klass, visited); }
        return memo[c], early;
      }
      if c in visited {
        return false, true;
      }
      ghost var path := visited;
      visited := visited + {c};
      var k := graph[c];
      result := k.bootLoader;
      result := result || !k.imageClass;
      var myEarly := false;
      if k.statusError {
        result := true;
      }
      if !result {
        result, myEarly := PruneSuccessors(c);
      }
      visited := visited - {c};
      assert visited == path;
      CombineSuccessors(c, path, result, myEarly);
      if result || !myEarly || visited == {} {
        memo := memo[c := result];
      }
      early' := early || myEarly;
    }

    /** Interfaces, component, static fields and superclass, until one of them is to be pruned. */
    method PruneSuccessors(c: ClassId) returns (result: bool, early: bool)
      requires Valid() && visited <= graph.Keys && c in graph
      modifies this
      ensures Valid() && visited == old(visited)
      ensures AnswersAll(Successors(graph[c]), visited, result, early)
      decreases graph.Keys - visited, 2
    {
      var k := graph[c];
      assert forall r :: r in Successors(k) ==> InGraph(graph, r);
      result, early := PruneAny(k.interfaces, false);
      ghost var done := k.interfaces;
      if k.objectArray {
        if !result {
          ghost var before := early;
          result, early := PruneAny([k.component], early);
          JoinAnswers(done, [k.component], visited, before, result, early);
        }
        done := done + [k.component];
      }
      if |k.statics| != 0 && k.resolved {
        if !result {
          ghost var before := early;
          result, early := PruneAny(StaticClasses(k), early);
          JoinAnswers(done, StaticClasses(k), visited, before, result, early);
        }
      }
      done := done + StaticClasses(k);
      if !result {
        ghost var before := early;
        result, early := PruneAny([k.superClass], early);
        JoinAnswers(done, [k.superClass], visited, before, result, early);
      }
      assert Successors(k) == done + [k.superClass];
    }

    /** An answer for a further list. */
    lemma JoinAnswers(a: seq<Ref>, b: seq<Ref>, path: set<ClassId>, before: bool, result: bool, cyclic: bool)
      requires AnswersAll(a, path, false, before) && AnswersAll(b, path, result, cyclic) && (before ==> cyclic)
      ensures AnswersAll(a + b, path, result, cyclic)
    {
      if result {
        var r :| r in b && Prunable(graph, r);
        assert r in a + b;
      }
    }

    /** The chains of `result = result || PruneAppImageClassInternal(...)` over a list of classes. */
    method PruneAny(rs: seq<Ref>, early: bool) returns (result: bool, early': bool)
      requires Valid() && visited <= graph.Keys
      requires forall r :: r in rs ==> InGraph(graph, r)
      modifies this
      ensures Valid() && visited == old(visited)
      ensures early ==> early'
      ensures AnswersAll(rs, visited, result, early')
      decreases graph.Keys - visited, 1, |rs|
    {
      result, early' := false, early;
      for i := 0 to |rs|
        invariant Valid() && visited == old(visited)
        invariant early ==> early'
        invariant AnswersAll(rs[..i], visited, result, early')
      {
        if !result {
          result, early' := PruneInternal(rs[i], early');
        }
        assert rs[..i + 1] == rs[..i] + [rs[i]];
      }
      assert rs[..|rs|] == rs;
    }

    /** The answers for the successors of a class settle the answer for the class. */
    lemma CombineSuccessors(c: ClassId, path: set<ClassId>, result: bool, cyclic: bool)
      requires c in graph && !graph[c].inBootImage
      requires result ==> DirectlyUnwanted(graph[c]) || exists r :: r in Successors(graph[c]) && Prunable(graph, r)
      requires !result ==> !DirectlyUnwanted(graph[c])
      requires !result ==> AnswersAll(Successors(graph[c]), path + {c}, false, cyclic)
      ensures Answers(To(c), path, result, cyclic)
    {
      if result {
        if DirectlyUnwanted(graph[c]) {
          assert Witness(graph, c, {}, [c]);
        } else {
          var r :| r in Successors(graph[c]) && Prunable(graph, r);
          PrependStep(graph, c, r, {});
        }
      } else {
        if PrunableAvoiding(graph, To(c), path) {
          FirstStep(graph, c, path);
        }
        if Prunable(graph, To(c)) {
          FirstStep(graph, c, {});
          var s :| s in Successors(graph[c]) && PrunableAvoiding(graph, s, {} + {c});
          AvoidingIsPrunable(graph, s, {} + {c});
        }
      }
    }

    /** PruneAppImageClass. */
    method Prune(klass: Ref) returns (result: bool)
      requires Valid() && InGraph(graph, klass)
      modifies this
      ensures Valid()
      ensures result == Prunable(graph, klass)
    {
      visited := {};
      var early := false;
      result, early := PruneInternal(klass, early);
    }

    /** KeepClass: the answer is a function of the class graph alone, whatever was asked before. */
    method KeepClass(klass: Ref) returns (result: bool)
      requires Valid() && InGraph(graph, klass)
      modifies this
      ensures Valid()
      ensures result == Kept(graph, compileAppImage, klass)
      ensures klass == Null ==> !result
      ensures klass.To? && !compileAppImage ==> (result <==> graph[klass.id].imageClass)
      ensures klass.To? && compileAppImage ==>
                (result <==> graph[klass.id].inBootImage || exists s :: klass.id in s && Keepable(graph, s))
    {
      if klass == Null {
        return false;
      }
      KeptIffKeepable(graph, klass.id);
      var k := graph[klass.id];
      if compileAppImage && k.inBootImage {
        return true;
      }
      if !k.imageClass {
        return false;
      }
      if compileAppImage {
        var prune := Prune(klass);
        return !prune;
      }
      return true;
    }
  }

  /** Closure is about classes outside the boot image: a kept boot-image class may hold a static
      reference to a class that is pruned. */
  lemma BootClassMayReachPruned(g: Graph)
    requires g == map[0 := Klass(true, true, true, false, [], false, Null, true, [ClassValue(1)], Null),
                      1 := Klass(false, false, false, false, [], false, Null, true, [], Null)]
    ensures Closed(g) && Kept(g, true, To(0))
    ensures To(1) in Successors(g[0]) && !g[1].inBootImage && !Kept(g, true, To(1))
  {
    assert Successors(g[0])[0] == To(1);
  }
}
