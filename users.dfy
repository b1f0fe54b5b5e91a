/** The `users` table and upsertUser (convex/users.ts): look the user up by
    identity-provider id, then patch the first match or insert a new record.
    The insert path stores role "candidate" whatever role was asked for. */
module Users {
  import opened Prelude

  datatype Role = Candidate | Interviewer

  datatype User = User(
    id: DocId,
    clerkId: string,
    email: string,
    name: string,
    image: Option<string>,
    role: Role)

  datatype UpsertArgs = UpsertArgs(
    email: string,
    name: string,
    image: Option<string>,
    clerkId: string,
    role: Role)

  /** Position of the first user with this clerkId (`.filter(...).first()`). */
  function FindByClerkId(rows: seq<User>, clerkId: string): (r: Option<nat>)
    ensures r.Some? ==> r.value < |rows| && rows[r.value].clerkId == clerkId
                        && forall j :: 0 <= j < r.value ==> rows[j].clerkId != clerkId
    ensures r.None? <==> forall j :: 0 <= j < |rows| ==> rows[j].clerkId != clerkId
  {
    FirstIndex(rows, (u: User) => u.clerkId == clerkId)
  }

  /** The patch path: email, name, image and role become the arguments. */
  function PatchedUser(u: User, args: UpsertArgs): User {
    u.(email := args.email, name := args.name, image := args.image, role := args.role)
  }

  /** The insert path: the role is hard-coded to candidate. */
  function NewUser(id: DocId, args: UpsertArgs): User {
    User(id, args.clerkId, args.email, args.name, args.image, Candidate)
  }

  /** The table after upsertUser, given the id an insert would receive. */
  function Upserted(rows: seq<User>, args: UpsertArgs, freshId: DocId): seq<User> {
    match FindByClerkId(rows, args.clerkId)
    case Some(k) => rows[k := PatchedUser(rows[k], args)]
    case None => rows + [NewUser(freshId, args)]
  }

  predicate Known(rows: seq<User>, clerkId: string) {
    FindByClerkId(rows, clerkId).Some?
  }

  /** At most one record per clerkId. */
  predicate UniqueClerkIds(rows: seq<User>) {
    forall i, j :: 0 <= i < j < |rows| ==> rows[i].clerkId != rows[j].clerkId
  }

  /** Ids strictly increase along the table and stay below the next id. */
  predicate WellKeyed(rows: seq<User>, nextId: DocId) {
    && (forall i, j :: 0 <= i < j < |rows| ==> rows[i].id < rows[j].id)
    && (forall i :: 0 <= i < |rows| ==> rows[i].id < nextId)
  }

  class UserTable {
    var rows: seq<User>
    var nextId: DocId

    ghost predicate Valid()
      reads this
    {
      WellKeyed(rows, nextId)
    }

    constructor ()
      ensures Valid() && rows == []
    {
      rows := [];
      nextId := 0;
    }

    /** upsertUser. */
    method UpsertUser(args: UpsertArgs)
      requires Valid()
      modifies this
      ensures Valid()
      ensures rows == Upserted(old(rows), args, old(nextId))
      ensures nextId == if Known(old(rows), args.clerkId) then old(nextId) else old(nextId) + 1
    {
      var existing := FindByClerkId(rows, args.clerkId);
      if existing.Some? {
        var k := existing.value;
        rows := rows[k := PatchedUser(rows[k], args)];
      } else {
        rows := rows + [NewUser(nextId, args)];
        nextId := nextId + 1;
      }
    }
  }

  /** Patch path: the first record with that clerkId takes the new email,
      name, image and role, keeps its clerkId and id, and the table keeps
      its size and every other record. */
  lemma UpsertPatchesExisting(rows: seq<User>, args: UpsertArgs, freshId: DocId, k: nat)
    requires FindByClerkId(rows, args.clerkId) == Some(k)
    ensures var r := Upserted(rows, args, freshId);
            |r| == |rows|
            && r[k].clerkId == rows[k].clerkId && r[k].id == rows[k].id
            && r[k].email == args.email && r[k].name == args.name
            && r[k].image == args.image && r[k].role == args.role
            && forall i :: 0 <= i < |rows| && i != k ==> r[i] == rows[i]
  {
  }

  /** Insert path: exactly one record is appended, with role candidate
      whatever args.role is. */
  lemma UpsertInsertsCandidate(rows: seq<User>, args: UpsertArgs, freshId: DocId)
    requires !Known(rows, args.clerkId)
    ensures var r := Upserted(rows, args, freshId);
            |r| == |rows| + 1 && r[..|rows|] == rows
            && r[|rows|] == User(freshId, args.clerkId, args.email, args.name, args.image, Candidate)
  {
  }

  /** The table grows exactly when the clerkId was unknown. */
  lemma UpsertSize(rows: seq<User>, args: UpsertArgs, freshId: DocId)
    ensures |Upserted(rows, args, freshId)| == if Known(rows, args.clerkId) then |rows| else |rows| + 1
  {
  }

  /** Records with other clerkIds are neither changed nor removed. */
  lemma UpsertKeepsOthers(rows: seq<User>, args: UpsertArgs, freshId: DocId, i: nat)
    requires i < |rows| && rows[i].clerkId != args.clerkId
    ensures Upserted(rows, args, freshId)[i] == rows[i]
  {
  }

  /** One record per clerkId before means one record per clerkId after. */
  lemma {:induction false} UpsertKeepsUnique(rows: seq<User>, args: UpsertArgs, freshId: DocId)
    requires UniqueClerkIds(rows)
    ensures UniqueClerkIds(Upserted(rows, args, freshId))
  {
    var r := Upserted(rows, args, freshId);
    match FindByClerkId(rows, args.clerkId)
    case Some(k) =>
      assert forall i :: 0 <= i < |r| ==> r[i].clerkId == rows[i].clerkId;
    case None =>
      assert forall i :: 0 <= i < |rows| ==> r[i] == rows[i];
  }

  /** The insert path hands out a fresh id, so the table stays well keyed. */
  lemma UpsertWellKeyed(rows: seq<User>, args: UpsertArgs, nextId: DocId)
    requires WellKeyed(rows, nextId)
    ensures WellKeyed(Upserted(rows, args, nextId),
                      if Known(rows, args.clerkId) then nextId else nextId + 1)
  {
  }

  /** For a clerkId already in the table, upserting twice is upserting once. */
  lemma {:induction false} UpsertIdempotentWhenKnown(rows: seq<User>, args: UpsertArgs, f1: DocId, f2: DocId)
    requires Known(rows, args.clerkId)
    ensures Upserted(Upserted(rows, args, f1), args, f2) == Upserted(rows, args, f1)
  {
    var k := FindByClerkId(rows, args.clerkId).value;
    var once := Upserted(rows, args, f1);
    assert once == rows[k := PatchedUser(rows[k], args)];
    assert forall j :: 0 <= j < k ==> once[j] == rows[j];
    var found := FindByClerkId(once, args.clerkId);
    assert once[k].clerkId == args.clerkId;
    assert found.Some?;
    assert found == Some(k);
  }

  /** After one call the clerkId is known, and the second call patches the
      record it finds. */
  lemma {:induction false} UpsertMakesKnown(rows: seq<User>, args: UpsertArgs, freshId: DocId)
    ensures Known(Upserted(rows, args, freshId), args.clerkId)
  {
    var r := Upserted(rows, args, freshId);
    match FindByClerkId(rows, args.clerkId)
    case Some(k) =>
      assert r[k].clerkId == args.clerkId;
    case None =>
      assert r[|rows|].clerkId == args.clerkId;
  }

  /** Exactly when repeated calls converge: a second identical call changes
      nothing if and only if the clerkId was already known or the requested
      role is candidate (the role the insert path stores anyway). */
  lemma {:induction false} UpsertConvergesIff(rows: seq<User>, args: UpsertArgs, freshId: DocId)
    ensures Upserted(Upserted(rows, args, freshId), args, freshId + 1) == Upserted(rows, args, freshId)
            <==> Known(rows, args.clerkId) || args.role == Candidate
  {
    if Known(rows, args.clerkId) {
      UpsertIdempotentWhenKnown(rows, args, freshId, freshId + 1);
    } else {
      var once := Upserted(rows, args, freshId);
      var n := |rows|;
      assert once == rows + [NewUser(freshId, args)];
      assert forall j :: 0 <= j < n ==> once[j].clerkId != args.clerkId;
      assert once[n].clerkId == args.clerkId;
      assert FindByClerkId(once, args.clerkId) == Some(n);
      var twice := Upserted(once, args, freshId + 1);
      assert twice == once[n := PatchedUser(once[n], args)];
      assert twice[n].role == args.role && once[n].role == Candidate;
      if args.role == Candidate {
        assert PatchedUser(once[n], args) == once[n];
      }
    }
  }

  /** From an empty table a user.updated-style upsert (role interviewer)
      is not idempotent: the first call stores candidate, the second
      interviewer. */
  lemma FirstUpsertIgnoresRole(clerkId: string, email: string, name: string)
    ensures var args := UpsertArgs(email, name, None, clerkId, Interviewer);
            var once := Upserted([], args, 0);
            var twice := Upserted(once, args, 1);
            once == [User(0, clerkId, email, name, None, Candidate)]
            && twice == [User(0, clerkId, email, name, None, Interviewer)]
  {
    var args := UpsertArgs(email, name, None, clerkId, Interviewer);
    var once := Upserted([], args, 0);
    assert FindByClerkId(once, clerkId) == Some(0);
  }
}
