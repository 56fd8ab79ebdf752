// The staff store: staff records with an active/inactive status. Every
// operation is a function of the collection it is given; module
// StaffContext holds the live collection. Id arguments go through parseInt
// before they are compared.
module Staff {
  import opened Common

  datatype StaffMember = StaffMember(
    id: int,
    firstName: string,
    lastName: string,
    email: string,
    phone: string,
    position: string,
    department: string,
    hireDate: string,
    salary: int,
    status: string,
    performance: int,
    notes: string,
    createdAt: string,
    updatedAt: string)

  /** The fields an update names; None leaves the stored value. The update
      stamps updatedAt itself, so a patch cannot set it. */
  datatype StaffPatch = StaffPatch(
    id: Option<int>,
    firstName: Option<string>,
    lastName: Option<string>,
    email: Option<string>,
    phone: Option<string>,
    position: Option<string>,
    department: Option<string>,
    hireDate: Option<string>,
    salary: Option<int>,
    status: Option<string>,
    performance: Option<int>,
    notes: Option<string>,
    createdAt: Option<string>)

  const Active := "active"
  const Inactive := "inactive"

  const EmptyPatch := StaffPatch(None, None, None, None, None, None, None, None, None, None, None, None, None)

  function Ids(staff: seq<StaffMember>): seq<int>
  {
    seq(|staff|, i requires 0 <= i < |staff| => staff[i].id)
  }

  /** `{...staff, ...staffData, updatedAt: now}`. */
  function Merge(s: StaffMember, p: StaffPatch, now: string): StaffMember
  {
    StaffMember(
      p.id.GetOr(s.id),
      p.firstName.GetOr(s.firstName),
      p.lastName.GetOr(s.lastName),
      p.email.GetOr(s.email),
      p.phone.GetOr(s.phone),
      p.position.GetOr(s.position),
      p.department.GetOr(s.department),
      p.hireDate.GetOr(s.hireDate),
      p.salary.GetOr(s.salary),
      p.status.GetOr(s.status),
      p.performance.GetOr(s.performance),
      p.notes.GetOr(s.notes),
      p.createdAt.GetOr(s.createdAt),
      now)
  }

  /** A patch that names nothing only refreshes the timestamp. */
  lemma MergeEmptyPatch(s: StaffMember, now: string)
    ensures Merge(s, EmptyPatch, now) == s.(updatedAt := now)
  {
  }

  /** Merging the same patch again changes nothing more. */
  lemma MergeIdempotent(s: StaffMember, p: StaffPatch, now: string)
    ensures Merge(Merge(s, p, now), p, now) == Merge(s, p, now)
  {
  }

  /** getStaffMemberById: the first record whose id equals parseInt(id). */
  function GetStaffMemberById(staff: seq<StaffMember>, id: IdArg): (r: Option<StaffMember>)
    ensures r.None? <==> forall i :: 0 <= i < |staff| ==> !MatchesParsed(staff[i].id, id)
    ensures r.Some? ==> exists k :: 0 <= k < |staff| && staff[k] == r.value &&
                                    MatchesParsed(staff[k].id, id) &&
                                    forall i :: 0 <= i < k ==> !MatchesParsed(staff[i].id, id)
  {
    Find(staff, (s: StaffMember) => MatchesParsed(s.id, id))
  }

  /** addStaffMember(staffData): the caller's fields with a fresh id and both
      timestamps, appended at the end. */
  function AddStaffMember(staff: seq<StaffMember>, staffData: StaffMember, now: string)
    : (r: (StaffMember, seq<StaffMember>))
    ensures r.1 == staff + [r.0]
    ensures r.0 == staffData.(id := r.0.id, createdAt := now, updatedAt := now)
    ensures forall i :: 0 <= i < |staff| ==> staff[i].id < r.0.id
    ensures |staff| == 0 ==> r.0.id == 1
    ensures |staff| > 0 ==> r.0.id - 1 in Ids(staff)
  {
    var ids := Ids(staff);
    assert forall i :: 0 <= i < |staff| ==> staff[i].id == ids[i];
    var newStaff := staffData.(id := NextId(ids), createdAt := now, updatedAt := now);
    (newStaff, staff + [newStaff])
  }

  /** updateStaffMember(id, staffData): merge the patch over every record with
      that id. What it returns is looked up in the collection it was given,
      so it is the record as it was before the update. */
  function UpdateStaffMember(staff: seq<StaffMember>, id: IdArg, staffData: StaffPatch, now: string)
    : (r: (Option<StaffMember>, seq<StaffMember>))
    ensures r.0 == GetStaffMemberById(staff, id)
    ensures |r.1| == |staff|
    ensures forall i :: 0 <= i < |staff| ==>
      r.1[i] == if MatchesParsed(staff[i].id, id) then Merge(staff[i], staffData, now) else staff[i]
  {
    (GetStaffMemberById(staff, id),
     seq(|staff|, i requires 0 <= i < |staff| =>
       if MatchesParsed(staff[i].id, id) then Merge(staff[i], staffData, now) else staff[i]))
  }

  /** deleteStaffMember(id): keep the records whose id is not parseInt(id). */
  function DeleteStaffMember(staff: seq<StaffMember>, id: IdArg): (r: seq<StaffMember>)
    ensures forall x :: x in r <==> x in staff && !MatchesParsed(x.id, id)
    ensures |r| <= |staff|
  {
    Filter(staff, (s: StaffMember) => !MatchesParsed(s.id, id))
  }

  /** The status toggleStaffStatus gives: active becomes inactive, and any
      other status becomes active. */
  function ToggledStatus(status: string): (r: string)
    ensures r == Inactive <==> status == Active
    ensures r == Active <==> status != Active
  {
    if status == Active then Inactive else Active
  }

  /** toggleStaffStatus(id): flip the status of every record with that id.
      Like updateStaffMember it returns the record as it was before. */
  function ToggleStaffStatus(staff: seq<StaffMember>, id: IdArg, now: string)
    : (r: (Option<StaffMember>, seq<StaffMember>))
    ensures r.0 == GetStaffMemberById(staff, id)
    ensures |r.1| == |staff| && Ids(r.1) == Ids(staff)
    ensures forall i :: 0 <= i < |staff| ==>
      r.1[i] == if MatchesParsed(staff[i].id, id)
                then staff[i].(status := ToggledStatus(staff[i].status), updatedAt := now)
                else staff[i]
  {
    (GetStaffMemberById(staff, id),
     seq(|staff|, i requires 0 <= i < |staff| =>
       if MatchesParsed(staff[i].id, id)
       then staff[i].(status := ToggledStatus(staff[i].status), updatedAt := now)
       else staff[i]))
  }

  // ---------------------------------------------------------------------
  // Properties that relate several calls.

  /** An update for an id no record has finds nothing and changes nothing. */
  lemma UpdateStaffMemberMissing(staff: seq<StaffMember>, id: IdArg, staffData: StaffPatch, now: string)
    requires forall i :: 0 <= i < |staff| ==> !MatchesParsed(staff[i].id, id)
    ensures UpdateStaffMember(staff, id, staffData, now) == (None, staff)
  {
    var r := UpdateStaffMember(staff, id, staffData, now);
    assert r.1 == staff;
  }

  /** A patch that does not name an id keeps every id where it was. */
  lemma UpdateStaffMemberKeepsIds(staff: seq<StaffMember>, id: IdArg, staffData: StaffPatch, now: string)
    requires staffData.id.None?
    ensures Ids(UpdateStaffMember(staff, id, staffData, now).1) == Ids(staff)
  {
  }

  /** After an update that keeps the id, looking the id up finds the merged
      record, although the update itself returned the old one. */
  lemma {:induction false} UpdateThenGet(staff: seq<StaffMember>, id: IdArg, staffData: StaffPatch, now: string)
    requires GetStaffMemberById(staff, id).Some?
    requires staffData.id.None?
    ensures GetStaffMemberById(UpdateStaffMember(staff, id, staffData, now).1, id) ==
            Some(Merge(GetStaffMemberById(staff, id).value, staffData, now))
  {
    var next := UpdateStaffMember(staff, id, staffData, now).1;
    var k :| 0 <= k < |staff| && staff[k] == GetStaffMemberById(staff, id).value &&
             MatchesParsed(staff[k].id, id) &&
             forall i :: 0 <= i < k ==> !MatchesParsed(staff[i].id, id);
    assert MatchesParsed(next[k].id, id);
    assert forall i :: 0 <= i < k ==> next[i] == staff[i];
  }

  /** Deleting keeps the order of what is left: it distributes over
      concatenation. */
  lemma DeleteStaffMemberAppend(a: seq<StaffMember>, b: seq<StaffMember>, id: IdArg)
    ensures DeleteStaffMember(a + b, id) == DeleteStaffMember(a, id) + DeleteStaffMember(b, id)
  {
    FilterAppend(a, b, (s: StaffMember) => !MatchesParsed(s.id, id));
  }

  /** On one record, delete removes it exactly when its id is parseInt(id);
      with DeleteStaffMemberAppend this fixes the result, order and
      repetitions included. */
  lemma DeleteStaffMemberOne(s: StaffMember, id: IdArg)
    ensures DeleteStaffMember([s], id) == if MatchesParsed(s.id, id) then [] else [s]
  {
  }

  /** Deleting with an id argument that parses to NaN removes nothing. */
  lemma DeleteStaffMemberNaN(staff: seq<StaffMember>, id: IdArg)
    requires ParseInt(id).None?
    ensures DeleteStaffMember(staff, id) == staff
  {
    FilterKeepsAll(staff, (s: StaffMember) => !MatchesParsed(s.id, id));
  }

  /** Deleting the record with the highest id m, when the record with id
      m - 1 stays, lets the next add hand out m again. */
  lemma DeleteMaxThenAddReusesId(staff: seq<StaffMember>, staffData: StaffMember, now: string)
    requires |staff| > 0
    requires NextId(Ids(staff)) - 2 in Ids(staff)
    ensures var m := NextId(Ids(staff)) - 1;
            AddStaffMember(DeleteStaffMember(staff, IntArg(m)), staffData, now).0.id == m
  {
    var m := NextId(Ids(staff)) - 1;
    var rest := DeleteStaffMember(staff, IntArg(m));
    forall i | 0 <= i < |rest| ensures Ids(rest)[i] in Ids(staff) && Ids(rest)[i] != m {
      assert rest[i] in staff;
      var j :| 0 <= j < |staff| && staff[j] == rest[i];
      assert Ids(staff)[j] == rest[i].id;
    }
    var j :| 0 <= j < |staff| && Ids(staff)[j] == m - 1;
    assert staff[j] in rest;
    var k :| 0 <= k < |rest| && rest[k] == staff[j];
    assert Ids(rest)[k] == m - 1;
    NextIdAfterRemovingMax(Ids(staff), Ids(rest));
  }

  /** Toggling the same record twice restores an active or inactive status;
      only updatedAt differs. */
  lemma ToggleTwiceRestores(staff: seq<StaffMember>, id: IdArg, first: string, second: string)
    requires forall i :: 0 <= i < |staff| && MatchesParsed(staff[i].id, id) ==>
               staff[i].status == Active || staff[i].status == Inactive
    ensures var twice := ToggleStaffStatus(ToggleStaffStatus(staff, id, first).1, id, second).1;
            |twice| == |staff| &&
            forall i :: 0 <= i < |staff| ==> twice[i].(updatedAt := staff[i].updatedAt) == staff[i]
  {
  }

  /** Every store operation that cannot rewrite an id keeps ids distinct;
      an add does too, because the new id is above all others. */
  lemma AddStaffMemberKeepsIdsDistinct(staff: seq<StaffMember>, staffData: StaffMember, now: string)
    requires Distinct(Ids(staff))
    ensures Distinct(Ids(AddStaffMember(staff, staffData, now).1))
  {
    var r := AddStaffMember(staff, staffData, now);
    assert forall i :: 0 <= i < |staff| ==> Ids(r.1)[i] == Ids(staff)[i];
  }
}

// The live staff collection and the operations that replace it.
module StaffContext {
  import opened Common
  import opened Staff

  class StaffProvider {
    var staffMembers: seq<StaffMember>

    constructor (initial: seq<StaffMember>)
      ensures staffMembers == initial
    {
      staffMembers := initial;
    }

    method AddStaffMember(staffData: StaffMember, now: string) returns (newStaff: StaffMember)
      modifies this
      ensures (newStaff, staffMembers) == Staff.AddStaffMember(old(staffMembers), staffData, now)
    {
      newStaff := staffData.(id := NextId(Ids(staffMembers)), createdAt := now, updatedAt := now);
      staffMembers := staffMembers + [newStaff];
    }

    method UpdateStaffMember(id: IdArg, staffData: StaffPatch, now: string) returns (found: Option<StaffMember>)
      modifies this
      ensures (found, staffMembers) == Staff.UpdateStaffMember(old(staffMembers), id, staffData, now)
    {
      var before := staffMembers;
      staffMembers := seq(|before|, i requires 0 <= i < |before| =>
        if MatchesParsed(before[i].id, id) then Merge(before[i], staffData, now) else before[i]);
      found := GetStaffMemberById(before, id);
    }

    method DeleteStaffMember(id: IdArg)
      modifies this
      ensures staffMembers == Staff.DeleteStaffMember(old(staffMembers), id)
    {
      staffMembers := Filter(staffMembers, (s: StaffMember) => !MatchesParsed(s.id, id));
    }

    method ToggleStaffStatus(id: IdArg, now: string) returns (found: Option<StaffMember>)
      modifies this
      ensures (found, staffMembers) == Staff.ToggleStaffStatus(old(staffMembers), id, now)
    {
      var before := staffMembers;
      staffMembers := seq(|before|, i requires 0 <= i < |before| =>
        if MatchesParsed(before[i].id, id)
        then before[i].(status := ToggledStatus(before[i].status), updatedAt := now)
        else before[i]);
      found := GetStaffMemberById(before, id);
    }
  }
}
