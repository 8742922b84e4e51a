/**
 * Include resolution: the `included` member of a document. Requested
 * relationship names are gated by the owning type's `allowedIncludes`; the
 * identifiers the primary resources link through the requested relationships
 * are collected primary by primary, relationships in declaration order, and
 * each (type, id) pair is kept once, where it is first seen. With nothing
 * requested the member is absent, which is not the same as empty.
 */
module Includes {
  import opened Wrappers
  import opened Registry

  /** A resource identifier; two are the same resource when type and id both match. */
  datatype Identifier = Identifier(typ: string, id: string)

  /** A primary resource with the identifiers each of its relationship accessors links to. */
  datatype Primary = Primary(self: Identifier, linkage: map<string, seq<Identifier>>)

  datatype IncludeError =
    | UnknownType(name: string)
    | IncludeNotAllowed(typeName: string, relation: string)

  predicate NoDuplicates<T(==)>(s: seq<T>) {
    forall i, j :: 0 <= i < j < |s| ==> s[i] != s[j]
  }

  /** The position where `x` first occurs in `s`. */
  function FirstIndex<T(==)>(s: seq<T>, x: T): (k: nat)
    requires x in s
    ensures k < |s| && s[k] == x && x !in s[..k]
  {
    if s[0] == x then 0 else 1 + FirstIndex(s[1..], x)
  }

  /** `s` with every element kept only where it first occurs: a left fold over `s`. */
  function Dedup<T(==)>(s: seq<T>): (r: seq<T>)
    ensures NoDuplicates(r)
    ensures forall i :: 0 <= i < |r| ==> r[i] in s
    ensures forall i :: 0 <= i < |s| ==> s[i] in r
    decreases |s|
  {
    if s == [] then []
    else
      var kept := Dedup(s[..|s| - 1]);
      if s[|s| - 1] in kept then kept else kept + [s[|s| - 1]]
  }

  lemma {:induction false} FirstIndexInPrefix<T>(s: seq<T>, n: nat, x: T)
    requires n <= |s| && x in s[..n]
    ensures FirstIndex(s, x) == FirstIndex(s[..n], x)
    decreases |s|
  {
    if s[0] != x {
      assert s[1..][..n - 1] == s[..n][1..];
      FirstIndexInPrefix(s[1..], n - 1, x);
    }
  }

  /** `Dedup` lists the kept elements in the order of their first occurrence. */
  lemma {:induction false} DedupFirstSeenOrder<T>(s: seq<T>)
    ensures forall i, j :: 0 <= i < j < |Dedup(s)| ==> FirstIndex(s, Dedup(s)[i]) < FirstIndex(s, Dedup(s)[j])
    decreases |s|
  {
    if s != [] {
      var p := s[..|s| - 1];
      var last := s[|s| - 1];
      var kept := Dedup(p);
      DedupFirstSeenOrder(p);
      assert s[..|s| - 1] == p;
      forall x | x in kept ensures FirstIndex(s, x) == FirstIndex(p, x) < |p| {
        FirstIndexInPrefix(s, |s| - 1, x);
      }
      if last !in kept {
        assert last !in p;
        assert FirstIndex(s, last) == |p|;
        AppendedComesLast(s, kept, last);
      }
    }
  }

  /** Appending an element first seen after all kept ones keeps the list in first-seen order. */
  lemma AppendedComesLast<T>(s: seq<T>, kept: seq<T>, last: T)
    requires last in s
    requires forall x :: x in kept ==> x in s && FirstIndex(s, x) < FirstIndex(s, last)
    requires forall i, j :: 0 <= i < j < |kept| ==> FirstIndex(s, kept[i]) < FirstIndex(s, kept[j])
    ensures forall i, j :: 0 <= i < j < |kept + [last]| ==> FirstIndex(s, (kept + [last])[i]) < FirstIndex(s, (kept + [last])[j])
  {
    var r := kept + [last];
    forall i, j | 0 <= i < j < |r| ensures FirstIndex(s, r[i]) < FirstIndex(s, r[j]) {
      assert r[i] == kept[i] && r[i] in kept;
      if j < |kept| {
        assert r[j] == kept[j];
      }
    }
  }

  /** What a primary links to through one accessor; nothing when it has no such linkage. */
  function Linked(p: Primary, accessor: string): seq<Identifier> {
    if accessor in p.linkage then p.linkage[accessor] else []
  }

  /** The identifiers one primary links through the requested relationships, in declaration order. */
  function LinkedThrough(p: Primary, rels: seq<Relationship>, requested: seq<string>): seq<Identifier>
    decreases |rels|
  {
    if rels == [] then []
    else (if rels[0].accessor in requested then Linked(p, rels[0].accessor) else [])
         + LinkedThrough(p, rels[1..], requested)
  }

  /** Every identifier the primaries link through the requested relationships, repetitions included. */
  function Referenced(primaries: seq<Primary>, rels: seq<Relationship>, requested: seq<string>): seq<Identifier>
    decreases |primaries|
  {
    if primaries == [] then []
    else LinkedThrough(primaries[0], rels, requested) + Referenced(primaries[1..], rels, requested)
  }

  lemma {:induction false} LinkedThroughMembers(p: Primary, rels: seq<Relationship>, requested: seq<string>, x: Identifier)
    ensures x in LinkedThrough(p, rels, requested) <==>
            exists r :: r in rels && r.accessor in requested && x in Linked(p, r.accessor)
    decreases |rels|
  {
    if rels != [] {
      LinkedThroughMembers(p, rels[1..], requested, x);
      assert forall r :: r in rels <==> r == rels[0] || r in rels[1..];
    }
  }

  /** Whether primary `p` links `x` through one of the requested relationships. */
  predicate LinksThrough(p: Primary, rels: seq<Relationship>, requested: seq<string>, x: Identifier) {
    exists r :: r in rels && r.accessor in requested && x in Linked(p, r.accessor)
  }

  /** An identifier is referenced exactly when some primary links it through some requested relationship. */
  lemma {:induction false} ReferencedMembers(primaries: seq<Primary>, rels: seq<Relationship>, requested: seq<string>, x: Identifier)
    ensures x in Referenced(primaries, rels, requested) <==>
            exists p :: p in primaries && LinksThrough(p, rels, requested, x)
    decreases |primaries|
  {
    if primaries != [] {
      var p0 := primaries[0];
      ReferencedMembers(primaries[1..], rels, requested, x);
      LinkedThroughMembers(p0, rels, requested, x);
      if x in Referenced(primaries, rels, requested) {
        if x in LinkedThrough(p0, rels, requested) {
          assert p0 in primaries && LinksThrough(p0, rels, requested, x);
        } else {
          var p :| p in primaries[1..] && LinksThrough(p, rels, requested, x);
          assert p in primaries;
        }
      }
      if exists p :: p in primaries && LinksThrough(p, rels, requested, x) {
        var p :| p in primaries && LinksThrough(p, rels, requested, x);
        if p != p0 {
          assert p in primaries[1..];
        }
      }
    }
  }

  /** The first requested name the type does not allow, if any. */
  function FirstDisallowed(allowed: seq<string>, requested: seq<string>): (r: Option<string>)
    ensures r.None? <==> forall n :: n in requested ==> n in allowed
    ensures r.Some? ==> r.value in requested && r.value !in allowed
  {
    if requested == [] then None
    else if requested[0] !in allowed then Some(requested[0])
    else FirstDisallowed(allowed, requested[1..])
  }

  /**
   * The `included` member for primaries of type `name`: None when nothing is
   * requested (the member is absent), an error when a requested name is not
   * includable, otherwise the deduplicated linked identifiers.
   */
  function Resolve(name: string, requested: seq<string>, primaries: seq<Primary>): Result<Option<seq<Identifier>>, IncludeError> {
    match Describe(name)
    case Failure(_) => Failure(UnknownType(name))
    case Success(d) =>
      if requested == [] then Success(None)
      else match FirstDisallowed(d.allowedIncludes, requested)
        case Some(n) => Failure(IncludeNotAllowed(name, n))
        case None => Success(Some(Dedup(Referenced(primaries, d.relationships, requested))))
  }

  /** Without an include request the `included` member is absent, not empty. */
  lemma AbsentWithoutRequest(name: string, primaries: seq<Primary>)
    requires name in TypeNames
    ensures Resolve(name, [], primaries) == Success(None)
  {
  }

  /** A request naming a relationship the type does not allow is rejected, and only such a request. */
  lemma RejectsDisallowed(name: string, requested: seq<string>, primaries: seq<Primary>)
    requires name in TypeNames && requested != []
    ensures Resolve(name, requested, primaries).Failure? <==> exists n :: n in requested && !IsIncludeAllowed(name, n)
  {
  }

  /** Any include request on groups is rejected. */
  lemma GroupsRejectEveryInclude(requested: seq<string>, primaries: seq<Primary>)
    requires requested != []
    ensures Resolve("groups", requested, primaries) == Failure(IncludeNotAllowed("groups", requested[0]))
  {
  }

  /** A resolved `included` list is the deduplicated list of what the primaries link through the requested relationships. */
  lemma ResolvedIsDedupOfReferenced(name: string, requested: seq<string>, primaries: seq<Primary>)
    requires Resolve(name, requested, primaries).Success? && Resolve(name, requested, primaries).value.Some?
    ensures name in Resources
    ensures Resolve(name, requested, primaries).value.value == Dedup(Referenced(primaries, Resources[name].relationships, requested))
  {
  }

  /**
   * A resolved `included` list holds each (type, id) once, holds exactly what
   * the primaries link through the requested relationships, and lists it in
   * first-seen order.
   */
  lemma ResolvedIncluded(name: string, requested: seq<string>, primaries: seq<Primary>)
    requires Resolve(name, requested, primaries).Success? && Resolve(name, requested, primaries).value.Some?
    ensures name in Resources
    ensures var inc := Resolve(name, requested, primaries).value.value;
            var rels := Resources[name].relationships;
            var refs := Referenced(primaries, rels, requested);
            && NoDuplicates(inc)
            && (forall x :: x in inc <==> exists p :: p in primaries && LinksThrough(p, rels, requested, x))
            && (forall i, j :: 0 <= i < j < |inc| ==> FirstIndex(refs, inc[i]) < FirstIndex(refs, inc[j]))
  {
    ResolvedIsDedupOfReferenced(name, requested, primaries);
    var rels := Resources[name].relationships;
    var refs := Referenced(primaries, rels, requested);
    IncludedFromReferences(primaries, rels, requested);
  }

  lemma IncludedFromReferences(primaries: seq<Primary>, rels: seq<Relationship>, requested: seq<string>)
    ensures var refs := Referenced(primaries, rels, requested);
            var inc := Dedup(refs);
            && (forall x :: x in inc <==> exists p :: p in primaries && LinksThrough(p, rels, requested, x))
            && (forall i, j :: 0 <= i < j < |inc| ==> FirstIndex(refs, inc[i]) < FirstIndex(refs, inc[j]))
  {
    var refs := Referenced(primaries, rels, requested);
    var inc := Dedup(refs);
    forall x ensures x in inc <==> exists p :: p in primaries && LinksThrough(p, rels, requested, x) {
      ReferencedMembers(primaries, rels, requested, x);
      DedupMembers(refs, x);
    }
    DedupFirstSeenOrder(refs);
  }

  lemma DedupMembers<T>(s: seq<T>, x: T)
    ensures x in Dedup(s) <==> x in s
  {
    if x in s {
      var i :| 0 <= i < |s| && s[i] == x;
    }
  }

  /** Three tasks each assigned users 1, 2 and 3: each user is included once, in that order. */
  lemma SharedAssigneesIncludedOnce()
    ensures var users := [Identifier("users", "1"), Identifier("users", "2"), Identifier("users", "3")];
            var tasks := [Primary(Identifier("tasks", "1"), map["assignees" := users]),
                          Primary(Identifier("tasks", "2"), map["assignees" := users]),
                          Primary(Identifier("tasks", "3"), map["assignees" := users])];
            Resolve("tasks", ["assignees"], tasks) == Success(Some(users))
  {
    var users := [Identifier("users", "1"), Identifier("users", "2"), Identifier("users", "3")];
    var tasks := [Primary(Identifier("tasks", "1"), map["assignees" := users]),
                  Primary(Identifier("tasks", "2"), map["assignees" := users]),
                  Primary(Identifier("tasks", "3"), map["assignees" := users])];
    var rels := Resources["tasks"].relationships;
    assert rels == [Relationship("users", "assignees")];
    AssigneesOfTask(tasks[0], users);
    AssigneesOfTask(tasks[1], users);
    AssigneesOfTask(tasks[2], users);
    ReferencedByThree(tasks, rels, ["assignees"], users);
    DedupIgnoresSeen(users, users + users);
    DedupOfDistinct(users);
  }

  lemma AssigneesOfTask(p: Primary, users: seq<Identifier>)
    requires p.linkage == map["assignees" := users]
    ensures LinkedThrough(p, [Relationship("users", "assignees")], ["assignees"]) == users
  {
    assert [Relationship("users", "assignees")][1..] == [];
  }

  /** Three primaries that each link the same identifiers reference them three times over. */
  lemma ReferencedByThree(tasks: seq<Primary>, rels: seq<Relationship>, requested: seq<string>, ids: seq<Identifier>)
    requires |tasks| == 3
    requires forall i :: 0 <= i < 3 ==> LinkedThrough(tasks[i], rels, requested) == ids
    ensures Referenced(tasks, rels, requested) == ids + (ids + ids)
  {
    assert tasks[1..][1..] == tasks[2..];
    assert tasks[2..][1..] == [];
    assert Referenced(tasks[2..], rels, requested) == ids + [];
  }

  /** A list without repetitions is its own deduplication. */
  lemma {:induction false} DedupOfDistinct<T>(s: seq<T>)
    requires NoDuplicates(s)
    ensures Dedup(s) == s
    decreases |s|
  {
    if s != [] {
      var p := s[..|s| - 1];
      DedupOfDistinct(p);
      assert s[|s| - 1] !in p;
      assert p + [s[|s| - 1]] == s;
    }
  }

  /** Elements that were already seen add nothing: repeats after the fact are dropped. */
  lemma {:induction false} DedupIgnoresSeen<T>(s: seq<T>, t: seq<T>)
    requires forall x :: x in t ==> x in s
    ensures Dedup(s + t) == Dedup(s)
    decreases |t|
  {
    if t != [] {
      var t' := t[..|t| - 1];
      DedupIgnoresSeen(s, t');
      assert (s + t)[..|s + t| - 1] == s + t';
      assert (s + t)[|s + t| - 1] == t[|t| - 1];
      assert t[|t| - 1] in s;
      DedupMembers(s, t[|t| - 1]);
      assert s + t != [];
      assert Dedup(s + t) == Dedup(s + t');
    } else {
      assert s + t == s;
    }
  }
}
