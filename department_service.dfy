/** The department service: create, update and delete departments in the data
    store, and the aggregation queries that join department membership with the
    applications for leave of the members.

    The data-access object's queries for the departments a person manages or is
    assigned to, and the application service's per-person lookup, are inputs. */
module DepartmentService {
  import opened Common
  import opened Calendar
  import opened Domain

  type DepartmentId = nat

  class Department {
    var id: Option<DepartmentId>
    var name: Option<string>
    var description: Option<string>
    var lastModification: Option<Instant>
    var members: seq<PersonId>

    /** A department that was never saved and never modified. */
    constructor ()
      ensures id.None? && name.None? && description.None?
      ensures lastModification.None? && members == []
    {
      id, name, description := None, None, None;
      lastModification := None;
      members := [];
    }
  }

  // ----- member lists -----

  predicate NoDuplicates(s: seq<PersonId>) {
    forall i, j :: 0 <= i < j < |s| ==> s[i] != s[j]
  }

  /** Whether `p` is in at least one of the member lists. */
  predicate InSome(lists: seq<seq<PersonId>>, p: PersonId) {
    exists i :: 0 <= i < |lists| && p in lists[i]
  }

  /** Adds each person of `xs` not yet present, in order, to a duplicate-free list. */
  function AddAll(acc: seq<PersonId>, xs: seq<PersonId>): (r: seq<PersonId>)
    requires NoDuplicates(acc)
    ensures NoDuplicates(r)
    ensures forall p :: p in r <==> p in acc || p in xs
    ensures |acc| <= |r| && r[..|acc|] == acc
    decreases |xs|
  {
    if xs == [] then acc
    else if xs[0] in acc then AddAll(acc, xs[1..])
    else AddAll(acc + [xs[0]], xs[1..])
  }

  /** Every person who is in some member list, each once. */
  function MemberUnion(lists: seq<seq<PersonId>>): (r: seq<PersonId>)
    ensures NoDuplicates(r)
    ensures forall p :: p in r <==> InSome(lists, p)
  {
    if lists == [] then []
    else
      var front := lists[..|lists| - 1];
      var r := AddAll(MemberUnion(front), lists[|lists| - 1]);
      assert forall p :: InSome(lists, p) <==> InSome(front, p) || p in lists[|lists| - 1] by {
        forall p | InSome(lists, p) ensures InSome(front, p) || p in lists[|lists| - 1] {
          var i :| 0 <= i < |lists| && p in lists[i];
          if i < |lists| - 1 {
            assert p in front[i];
          }
        }
        forall p | InSome(front, p) ensures InSome(lists, p) {
          var i :| 0 <= i < |front| && p in front[i];
          assert p in lists[i];
        }
      }
      r
  }

  /** The member lists of some departments, in their order. */
  function MemberLists(depts: seq<Department>): (lists: seq<seq<PersonId>>)
    reads depts
    ensures |lists| == |depts|
    ensures forall i :: 0 <= i < |depts| ==> lists[i] == depts[i].members
  {
    seq(|depts|, i requires 0 <= i < |depts| reads depts => depts[i].members)
  }

  /** Whether `p` is a member of one of the departments. */
  predicate MemberOfSome(depts: seq<Department>, p: PersonId)
    reads depts
  {
    exists i :: 0 <= i < |depts| && p in depts[i].members
  }

  lemma MemberListsAgree(depts: seq<Department>, p: PersonId)
    ensures InSome(MemberLists(depts), p) <==> MemberOfSome(depts, p)
  {
  }

  // ----- getManagedMembersOfDepartmentHead / isDepartmentHeadOfPerson -----

  /** The members of the departments a head manages (`managed`, as the data
      store returns them): every member of every such department, once. */
  function ManagedMembersOfDepartmentHead(managed: seq<Department>): (members: seq<PersonId>)
    reads managed
    ensures NoDuplicates(members)
    ensures forall p :: p in members <==> MemberOfSome(managed, p)
    ensures managed == [] ==> members == []
  {
    var members := MemberUnion(MemberLists(managed));
    assert forall p :: p in members <==> MemberOfSome(managed, p) by {
      forall p ensures p in members <==> MemberOfSome(managed, p) {
        MemberListsAgree(managed, p);
      }
    }
    members
  }

  /** Whether `head` (with roles `headRoles`, managing `managed`) is the
      department head of `p`. */
  function IsDepartmentHeadOfPerson(headRoles: set<Role>, managed: seq<Department>, p: PersonId): (r: bool)
    reads managed
    ensures r <==> DEPARTMENT_HEAD in headRoles && MemberOfSome(managed, p)
  {
    DEPARTMENT_HEAD in headRoles && p in ManagedMembersOfDepartmentHead(managed)
  }

  /** All persons in some member list, as a set. */
  function AllMembers(lists: seq<seq<PersonId>>): (s: set<PersonId>)
    ensures forall p :: p in s <==> InSome(lists, p)
  {
    set i, p | 0 <= i < |lists| && p in lists[i] :: p
  }

  function Elements(s: seq<PersonId>): set<PersonId> {
    set p | p in s
  }

  lemma {:induction false} DistinctCount(s: seq<PersonId>)
    requires NoDuplicates(s)
    ensures |Elements(s)| == |s|
  {
    if s != [] {
      var rest := s[1..];
      assert NoDuplicates(rest);
      DistinctCount(rest);
      assert s[0] !in rest;
      assert Elements(s) == Elements(rest) + {s[0]} by {
        assert s == [s[0]] + rest;
      }
    }
  }

  /** The number of managed members is the number of distinct persons across
      all managed departments: a person in two of them counts once. */
  lemma ManagedMemberCount(lists: seq<seq<PersonId>>)
    ensures |MemberUnion(lists)| == |AllMembers(lists)|
  {
    var r := MemberUnion(lists);
    DistinctCount(r);
    assert Elements(r) == AllMembers(lists);
  }

  /** Two departments of three and four members that share their head give six. */
  lemma SharedHeadCountsOnce(head: PersonId, a1: PersonId, a2: PersonId,
                             m1: PersonId, m2: PersonId, m3: PersonId)
    requires |{head, a1, a2, m1, m2, m3}| == 6
    ensures |MemberUnion([[a1, a2, head], [m1, m2, m3, head]])| == 6
  {
    var lists := [[a1, a2, head], [m1, m2, m3, head]];
    ManagedMemberCount(lists);
    assert AllMembers(lists) == {head, a1, a2, m1, m2, m3} by {
      assert a1 in lists[0] && a2 in lists[0] && head in lists[0];
      assert m1 in lists[1] && m2 in lists[1] && m3 in lists[1];
    }
  }

  // ----- getApplicationsForLeaveOfMembersInDepartmentsOfPerson -----

  /** `s` without `x`, order kept. */
  function Without(s: seq<PersonId>, x: PersonId): (r: seq<PersonId>)
    ensures forall p :: p in r <==> p in s && p != x
    ensures NoDuplicates(s) ==> NoDuplicates(r)
    ensures |r| <= |s|
  {
    if s == [] then []
    else
      var rest := Without(s[1..], x);
      assert NoDuplicates(s) ==> NoDuplicates(s[1..]) && s[0] !in s[1..];
      if s[0] == x then rest else [s[0]] + rest
  }

  /** The persons whose applications are looked up for `person`: every other
      member of the departments `person` is assigned to, each once. */
  function Colleagues(person: PersonId, assignedDepartments: seq<Department>): (r: seq<PersonId>)
    reads assignedDepartments
    ensures NoDuplicates(r)
    ensures person !in r
    ensures forall q :: q in r <==> q != person && MemberOfSome(assignedDepartments, q)
    ensures assignedDepartments == [] ==> r == []
  {
    Without(ManagedMembersOfDepartmentHead(assignedDepartments), person)
  }

  /** Whether an application is WAITING or ALLOWED, asked through `hasStatus`. */
  predicate Pending<A>(a: A, hasStatus: (A, ApplicationStatus) -> bool) {
    hasStatus(a, WAITING) || hasStatus(a, ALLOWED)
  }

  /** The WAITING or ALLOWED applications among `apps`, order kept. */
  function KeepPending<A>(apps: seq<A>, hasStatus: (A, ApplicationStatus) -> bool): (r: seq<A>)
    ensures forall k :: 0 <= k < |r| ==> Pending(r[k], hasStatus)
    ensures multiset(r) <= multiset(apps)
    ensures forall a :: a in apps && Pending(a, hasStatus) ==> a in r
  {
    if apps == [] then []
    else
      assert apps == [apps[0]] + apps[1..];
      var rest := KeepPending(apps[1..], hasStatus);
      if Pending(apps[0], hasStatus) then [apps[0]] + rest else rest
  }

  /** Whether `a` was returned by the lookup for one of `persons`. */
  predicate FetchedFor<A(==, !new)>(a: A, persons: seq<PersonId>, from: Day, to: Day,
                              fetch: (Day, Day, PersonId) -> seq<A>)
  {
    exists i :: 0 <= i < |persons| && a in fetch(from, to, persons[i])
  }

  /** The WAITING or ALLOWED applications, for the period [from, to], of each
      person in `persons`, one lookup per person, in order. */
  function CollectPending<A(==, !new)>(persons: seq<PersonId>, from: Day, to: Day,
                                 fetch: (Day, Day, PersonId) -> seq<A>,
                                 hasStatus: (A, ApplicationStatus) -> bool): (r: seq<A>)
    ensures forall a :: a in r <==> FetchedFor(a, persons, from, to, fetch) && Pending(a, hasStatus)
  {
    if persons == [] then []
    else
      var rest := CollectPending(persons[1..], from, to, fetch, hasStatus);
      var here := KeepPending(fetch(from, to, persons[0]), hasStatus);
      assert forall a :: a in here ==> a in fetch(from, to, persons[0]) by {
        forall a | a in here ensures a in fetch(from, to, persons[0]) {
          assert a in multiset(here);
        }
      }
      assert forall a :: FetchedFor(a, persons, from, to, fetch) <==>
                         a in fetch(from, to, persons[0]) || FetchedFor(a, persons[1..], from, to, fetch) by {
        forall a | FetchedFor(a, persons, from, to, fetch)
          ensures a in fetch(from, to, persons[0]) || FetchedFor(a, persons[1..], from, to, fetch)
        {
          var i :| 0 <= i < |persons| && a in fetch(from, to, persons[i]);
          if i > 0 {
            assert a in fetch(from, to, persons[1..][i - 1]);
          }
        }
        forall a | FetchedFor(a, persons[1..], from, to, fetch) ensures FetchedFor(a, persons, from, to, fetch) {
          var i :| 0 <= i < |persons[1..]| && a in fetch(from, to, persons[1..][i]);
          assert a in fetch(from, to, persons[i + 1]);
        }
      }
      here + rest
  }

  /** The applications for leave, in the period [from, to], of the other members
      of the departments `person` is assigned to (`assignedDepartments`, as the data store
      returns them) that are WAITING or ALLOWED. `fetch` is the application
      service's lookup for one person and period. */
  function ApplicationsForLeaveOfMembersInDepartmentsOfPerson<A(==, !new)>(
    person: PersonId, from: Day, to: Day, assignedDepartments: seq<Department>,
    fetch: (Day, Day, PersonId) -> seq<A>,
    hasStatus: (A, ApplicationStatus) -> bool): (r: seq<A>)
    reads assignedDepartments
    ensures assignedDepartments == [] ==> r == []
    ensures forall a :: a in r <==>
              && Pending(a, hasStatus)
              && exists q :: q != person && MemberOfSome(assignedDepartments, q) && a in fetch(from, to, q)
  {
    var colleagues := Colleagues(person, assignedDepartments);
    var r := CollectPending(colleagues, from, to, fetch, hasStatus);
    assert forall a :: FetchedFor(a, colleagues, from, to, fetch) <==>
                       exists q :: q != person && MemberOfSome(assignedDepartments, q) && a in fetch(from, to, q) by {
      forall a | FetchedFor(a, colleagues, from, to, fetch)
        ensures exists q :: q != person && MemberOfSome(assignedDepartments, q) && a in fetch(from, to, q)
      {
        var i :| 0 <= i < |colleagues| && a in fetch(from, to, colleagues[i]);
        assert colleagues[i] in colleagues;
      }
      forall a | exists q :: q != person && MemberOfSome(assignedDepartments, q) && a in fetch(from, to, q)
        ensures FetchedFor(a, colleagues, from, to, fetch)
      {
        var q :| q != person && MemberOfSome(assignedDepartments, q) && a in fetch(from, to, q);
        var i :| 0 <= i < |colleagues| && colleagues[i] == q;
      }
    }
    r
  }

  /** The person's own applications are never looked up, and no application is
      looked up at all when the person is assigned to no department. */
  lemma OwnApplicationsNeverFetched(person: PersonId, assignedDepartments: seq<Department>)
    ensures person !in Colleagues(person, assignedDepartments)
    ensures assignedDepartments == [] ==> Colleagues(person, assignedDepartments) == []
  {
  }

  /** Every fetched application that is WAITING or ALLOWED is kept as often as
      it was fetched; nothing that was not fetched appears. */
  lemma {:induction false} CollectKeepsEveryPending<A(!new)>(
    persons: seq<PersonId>, from: Day, to: Day,
    fetch: (Day, Day, PersonId) -> seq<A>, hasStatus: (A, ApplicationStatus) -> bool)
    ensures |CollectPending(persons, from, to, fetch, hasStatus)| == PendingCount(persons, from, to, fetch, hasStatus)
  {
    if persons != [] {
      CollectKeepsEveryPending(persons[1..], from, to, fetch, hasStatus);
      KeepPendingCount(fetch(from, to, persons[0]), hasStatus);
    }
  }

  /** How many of the applications of `persons` are WAITING or ALLOWED, counted one by one. */
  function PendingCount<A>(persons: seq<PersonId>, from: Day, to: Day,
                           fetch: (Day, Day, PersonId) -> seq<A>,
                           hasStatus: (A, ApplicationStatus) -> bool): nat
  {
    if persons == [] then 0
    else CountPending(fetch(from, to, persons[0]), hasStatus) + PendingCount(persons[1..], from, to, fetch, hasStatus)
  }

  function CountPending<A>(apps: seq<A>, hasStatus: (A, ApplicationStatus) -> bool): nat {
    if apps == [] then 0
    else (if Pending(apps[0], hasStatus) then 1 else 0) + CountPending(apps[1..], hasStatus)
  }

  lemma {:induction false} KeepPendingCount<A>(apps: seq<A>, hasStatus: (A, ApplicationStatus) -> bool)
    ensures |KeepPending(apps, hasStatus)| == CountPending(apps, hasStatus)
  {
    if apps != [] {
      KeepPendingCount(apps[1..], hasStatus);
    }
  }

  // ----- create, update, delete -----

  class DepartmentStore {
    /** The departments saved in the data store, by id. */
    var store: map<DepartmentId, Department>
    /** The next id the data store hands out. */
    var nextId: DepartmentId

    ghost predicate Valid()
      reads this
    {
      forall k :: k in store ==> k < nextId
    }

    constructor ()
      ensures Valid() && store == map[]
    {
      store := map[];
      nextId := 0;
    }

    function GetDepartmentById(id: DepartmentId): (d: Option<Department>)
      reads this
      ensures d.Some? <==> id in store
      ensures d.Some? ==> d.value == store[id]
    {
      if id in store then Some(store[id]) else None
    }

    method GetAllDepartments() returns (all: set<Department>)
      ensures forall k :: k in store ==> store[k] in all
      ensures forall d :: d in all <==> exists k :: k in store && store[k] == d
      ensures |all| <= |store|
    {
      all := store.Values;
    }

    /** The data store's save: a department without id is given a new one. */
    method Save(department: Department)
      requires Valid()
      modifies this, department`id
      ensures Valid()
      ensures department.id.Some?
      ensures old(department.id).Some? ==> department.id == old(department.id)
      ensures old(department.id).None? ==> department.id.value !in old(store)
      ensures store == old(store)[department.id.value := department]
    {
      if department.id.None? {
        department.id := Some(nextId);
      }
      var id := department.id.value;
      store := store[id := department];
      if nextId <= id {
        nextId := id + 1;
      }
    }

    /** `create`: stamps the modification time with `now` and saves. */
    method Create(department: Department, now: Instant)
      requires Valid()
      modifies this, department`id, department`lastModification
      ensures Valid()
      ensures department.lastModification == Some(now)
      ensures department.id.Some?
      ensures old(department.id).Some? ==> department.id == old(department.id)
      ensures old(department.id).None? ==> department.id.value !in old(store)
      ensures store == old(store)[department.id.value := department]
    {
      department.lastModification := Some(now);
      Save(department);
    }

    /** `update`: stamps the modification time with `now` and saves. */
    method Update(department: Department, now: Instant)
      requires Valid()
      modifies this, department`id, department`lastModification
      ensures Valid()
      ensures department.lastModification == Some(now)
      ensures department.id.Some?
      ensures old(department.id).Some? ==> department.id == old(department.id)
      ensures old(department.id).None? ==> department.id.value !in old(store)
      ensures store == old(store)[department.id.value := department]
    {
      department.lastModification := Some(now);
      Save(department);
    }

    /** `delete`: fails with an illegal-state error, changing nothing, when the
        id is not in the store; otherwise removes exactly that id. */
    method Delete(id: DepartmentId) returns (outcome: Outcome)
      requires Valid()
      modifies this
      ensures Valid()
      ensures id !in old(store) ==> outcome == Thrown(IllegalStateException) && store == old(store)
      ensures id in old(store) ==> outcome == Completed && store == old(store) - {id}
    {
      var found := GetDepartmentById(id);
      if found.None? {
        outcome := Thrown(IllegalStateException);
      } else {
        store := store - {id};
        outcome := Completed;
      }
    }
  }
}
