/** The record detail page: loading a record and its activities, saving
    it, and qualifying a Lead into a Contact and an Opportunity. */
module RecordDetail {
  import opened Text
  import opened Records
  import opened Constants

  /** `fullName.split(' ')[0]`. */
  function FirstName(fullName: string): string
  {
    Split(fullName, ' ')[0]
  }

  /** `fullName.split(' ').slice(1).join(' ')`. */
  function LastName(fullName: string): string
  {
    Join(Split(fullName, ' ')[1..], ' ')
  }

  /** The first name holds no space; with a space in the name the two parts
      rejoin to it, and without one the last name is empty. */
  lemma NameSplit(fullName: string)
    ensures ' ' !in FirstName(fullName)
    ensures ' ' in fullName ==> FirstName(fullName) + " " + LastName(fullName) == fullName
    ensures ' ' !in fullName ==> FirstName(fullName) == fullName && LastName(fullName) == ""
  {
    var parts := Split(fullName, ' ');
    SplitPiecesFree(fullName, ' ');
    SplitSingle(fullName, ' ');
    JoinSplit(fullName, ' ');
    if ' ' in fullName {
      assert |parts| >= 2;
      assert Join(parts, ' ') == parts[0] + [' '] + Join(parts[1..], ' ');
    }
  }

  /** The clock readings a qualification takes: `Date.now()` for each id and
      `new Date().toISOString()` for each timestamp. */
  datatype Readings = Readings(contactMs: nat, contactCreated: string, oppMs: nat, oppClose: string, oppCreated: string)

  /** The Contact synthesized from the lead record. */
  function NewContact(record: Record, fullName: string, t: Readings): Record
  {
    map["id" := Str("con-" + NatToString(t.contactMs)),
        "firstName" := Str(FirstName(fullName)),
        "lastName" := Str(LastName(fullName)),
        "email" := Field(record, "email"),
        "phone" := Field(record, "phone"),
        "createdOn" := Str(t.contactCreated),
        "ownerId" := Field(record, "ownerId")]
  }

  /** The Opportunity synthesized from the lead record. */
  function NewOpportunity(record: Record, contactId: Value, t: Readings): Record
  {
    map["id" := Str("opp-" + NatToString(t.oppMs)),
        "name" := Str(ToStr(Field(record, "company")) + " - Potential Deal"),
        "contactId" := contactId,
        "stage" := Str("Prospecting"),
        "estRevenue" := Num(0),
        "closeDate" := Str(t.oppClose),
        "createdOn" := Str(t.oppCreated),
        "ownerId" := Field(record, "ownerId")]
  }

  const QualifiedStatus: Record := map["status" := Str("Qualified")]

  /** The handler runs only on the Lead page with a record loaded; reading
      `fullName.split` on a value that is not a string throws before any write. */
  predicate QualifyRuns(entityType: string, record: Option<Record>)
  {
    entityType == "Lead" && record.Some? && Field(record.value, "fullName").Str?
  }

  /** The three writes of the qualification, in order: add the Contact, add
      the Opportunity, mark the Lead qualified. */
  function QualifyWrites(c: Collections, id: string, contact: Record, opp: Record): (r: Collections)
    ensures r.contacts == c.contacts + [contact]
    ensures r.leads == UpdateFirst(c.leads, id, QualifiedStatus)
    ensures r.accounts == c.accounts && r.opportunities == c.opportunities && r.activities == c.activities
  {
    ResolveContact();
    ResolveOpportunity();
    ResolveLead();
    ResolveAgrees("Contact");
    ResolveAgrees("Opportunity");
    ResolveAgrees("Lead");
    UpdateSpec(AddSpec(AddSpec(c, "Contact", contact), "Opportunity", opp), "Lead", id, QualifiedStatus)
  }

  /** The store after `handleQualifyLead`. */
  function QualifySpec(c: Collections, entityType: string, id: string, record: Option<Record>, t: Readings): (r: Collections)
    ensures !QualifyRuns(entityType, record) ==> r == c
    ensures QualifyRuns(entityType, record) ==>
      && r.contacts == c.contacts + [NewContact(record.value, Field(record.value, "fullName").s, t)]
      && r.leads == UpdateFirst(c.leads, id, QualifiedStatus)
      && r.accounts == c.accounts && r.opportunities == c.opportunities && r.activities == c.activities
  {
    if QualifyRuns(entityType, record) then
      var contact := NewContact(record.value, Field(record.value, "fullName").s, t);
      QualifyWrites(c, id, contact, NewOpportunity(record.value, Field(contact, "id"), t))
    else c
  }

  /** The Contact copies the lead's email, phone and owner and splits its name. */
  lemma ContactFromLead(record: Record, fullName: string, t: Readings)
    ensures var contact := NewContact(record, fullName, t);
            && Field(contact, "email") == Field(record, "email")
            && Field(contact, "phone") == Field(record, "phone")
            && Field(contact, "ownerId") == Field(record, "ownerId")
            && (' ' in fullName ==> ToStr(Field(contact, "firstName")) + " " + ToStr(Field(contact, "lastName")) == fullName)
            && (' ' !in fullName ==> Field(contact, "lastName") == Str(""))
  {
    NameSplit(fullName);
  }

  /** The Opportunity is named after the company, starts at Prospecting with
      no revenue, and refers to the new Contact. */
  lemma OpportunityFromLead(record: Record, fullName: string, t: Readings)
    ensures var contact := NewContact(record, fullName, t);
            var opp := NewOpportunity(record, Field(contact, "id"), t);
            && Field(opp, "name") == Str(ToStr(Field(record, "company")) + " - Potential Deal")
            && Field(opp, "stage") == Str("Prospecting")
            && Field(opp, "estRevenue") == Num(0)
            && Field(opp, "contactId") == Field(contact, "id")
            && Field(opp, "contactId") == Str("con-" + NatToString(t.contactMs))
  {
  }

  /** Marking the first lead with that id qualified changes its status and
      nothing else, and no other lead. */
  lemma MarkQualified(leads: seq<Record>, id: string)
    requires IndexOfId(leads, id) >= 0
    ensures var r := UpdateFirst(leads, id, QualifiedStatus);
            var k := IndexOfId(leads, id);
            && |r| == |leads|
            && HasId(leads[k], id)
            && Field(r[k], "status") == Str("Qualified")
            && r[k].Keys == leads[k].Keys + {"status"}
            && (forall f :: f in leads[k] && f != "status" ==> r[k][f] == leads[k][f])
            && (forall j :: 0 <= j < |leads| && j != k ==> r[j] == leads[j])
  {
    assert QualifiedStatus.Keys == {"status"} && QualifiedStatus["status"] == Str("Qualified");
  }

  /** After qualification the lead with that id has status Qualified and
      every other property as before; no other lead changes. */
  lemma QualifiedLead(c: Collections, id: string, record: Record, t: Readings)
    requires QualifyRuns("Lead", Some(record))
    ensures QualifySpec(c, "Lead", id, Some(record), t).leads == UpdateFirst(c.leads, id, QualifiedStatus)
    ensures IndexOfId(c.leads, id) >= 0 ==>
            var r := QualifySpec(c, "Lead", id, Some(record), t).leads;
            var k := IndexOfId(c.leads, id);
            Field(r[k], "status") == Str("Qualified") &&
            (forall f :: f in c.leads[k] && f != "status" ==> r[k][f] == c.leads[k][f])
  {
    if IndexOfId(c.leads, id) >= 0 {
      MarkQualified(c.leads, id);
    }
  }

  /** The synthesized Opportunity is lost: "Opportunity" resolves to no
      collection, so the opportunities stay as they were. */
  lemma QualifyAddsNoOpportunity(c: Collections, entityType: string, id: string, record: Option<Record>, t: Readings)
    ensures QualifySpec(c, entityType, id, record, t).opportunities == c.opportunities
  {
  }

  /** The record the page shows: the first record of `get(entityType)` with
      that id. */
  function LoadedRecord(c: Collections, entityType: string, id: string): (r: Option<Record>)
    ensures r.Some? ==> r.value in GetSpec(c, entityType) && HasId(r.value, id)
    ensures r.None? <==> forall x :: x in GetSpec(c, entityType) ==> !HasId(x, id)
    ensures r.Some? ==> exists k :: 0 <= k < |GetSpec(c, entityType)| && GetSpec(c, entityType)[k] == r.value &&
                                    forall j :: 0 <= j < k ==> !HasId(GetSpec(c, entityType)[j], id)
    ensures r.Some? ==> r.value == GetSpec(c, entityType)[IndexOfId(GetSpec(c, entityType), id)]
  {
    FindById(GetSpec(c, entityType), id)
  }

  /** `activities.filter(a => a.regardingId === id)`. */
  function Regarding(list: seq<Record>, id: string): (r: seq<Record>)
    ensures forall x :: x in r <==> x in list && Field(x, "regardingId") == Str(id)
    ensures forall x :: multiset(r)[x] == if Field(x, "regardingId") == Str(id) then multiset(list)[x] else 0
  {
    if list == [] then []
    else
      assert list == [list[0]] + list[1..];
      (if Field(list[0], "regardingId") == Str(id) then [list[0]] else []) + Regarding(list[1..], id)
  }

  /** The related activities keep the order they have in the store. */
  lemma {:induction false} RegardingIsSubsequence(list: seq<Record>, id: string)
    ensures IsSubsequence(Regarding(list, id), list)
  {
    if list != [] {
      RegardingIsSubsequence(list[1..], id);
      var rest := Regarding(list[1..], id);
      if Field(list[0], "regardingId") == Str(id) {
        assert Regarding(list, id) == [list[0]] + rest;
        assert ([list[0]] + rest)[1..] == rest;
      } else {
        assert Regarding(list, id) == rest;
        SubsequenceOfTail(rest, list);
      }
    }
  }

  /** The related-activities list is always empty, because it is read
      through `get('Activity')`. */
  lemma RelatedActivitiesEmpty(c: Collections, id: string)
    ensures Regarding(GetSpec(c, "Activity"), id) == []
  {
    GetActivityEmpty(c);
  }

  /** The project detail route passes "Opportunity", so no project record
      ever loads. */
  lemma OpportunityDetailNeverLoads(c: Collections, id: string)
    ensures LoadedRecord(c, "Opportunity", id) == None
  {
    ResolveOpportunity();
  }

  /** The store after `handleSave`: the page's record is merged into the
      first record with the route id. */
  function SaveSpec(c: Collections, entityType: string, id: string, record: Option<Record>): (r: Collections)
    ensures id == "" || record.None? ==> r == c
    ensures forall k :: Some(k) != Resolve(entityType) ==> r.Of(k) == c.Of(k)
    ensures id != "" && record.Some? && Resolve(entityType).Some? ==>
      r.Of(Resolve(entityType).value) == UpdateFirst(c.Of(Resolve(entityType).value), id, record.value)
  {
    ResolveAgrees(entityType);
    if id != "" && record.Some? then UpdateSpec(c, entityType, id, record.value) else c
  }

  /** Saving the record exactly as it was loaded leaves the store unchanged. */
  lemma SaveUnchangedRecordIsNoOp(c: Collections, entityType: string, id: string)
    ensures SaveSpec(c, entityType, id, LoadedRecord(c, entityType, id)) == c
  {
    var loaded := LoadedRecord(c, entityType, id);
    ResolveAgrees(entityType);
    if id != "" && loaded.Some? {
      var k := Resolve(entityType).value;
      var list := c.Of(k);
      var i := IndexOfId(list, id);
      assert loaded.value == list[i];
      assert Merge(list[i], list[i]) == list[i];
      assert UpdateFirst(list, id, loaded.value) == list;
      assert c.With(k, list) == c by {
        match k
        case Accounts =>
        case Contacts =>
        case Leads =>
        case Opportunities =>
        case Activities =>
      }
    }
  }

  /** The page's state: the route's entity type and id, and what it loaded. */
  class Page {
    const entityType: string
    const id: string       // the route parameter; "" stands for an absent one
    var record: Option<Record>
    var activities: seq<Record>

    constructor (entityType: string, id: string)
      ensures this.entityType == entityType && this.id == id
      ensures record == None && activities == []
    {
      this.entityType := entityType;
      this.id := id;
      record := None;
      activities := [];
    }

    /** The `useEffect` load: the record by id, and its related activities. */
    method Load(store: Store)
      modifies this
      ensures id != "" ==> record == LoadedRecord(store.Contents(), entityType, id)
      ensures id != "" ==> activities == Regarding(GetSpec(store.Contents(), "Activity"), id)
      ensures id == "" ==> record == old(record) && activities == old(activities)
    {
      if id != "" {
        var allRecords := store.Get(entityType);
        var k := FindIndex(allRecords, id);
        assert k == IndexOfId(allRecords, id);
        record := if k == -1 then None else Some(allRecords[k]);
        var allActivities := store.Get("Activity");
        activities := Regarding(allActivities, id);
      }
    }

    method HandleSave(store: Store)
      modifies store
      ensures store.Contents() == SaveSpec(old(store.Contents()), entityType, id, record)
    {
      if id != "" && record.Some? {
        store.Update(entityType, id, record.value);
      }
    }

    /** `handleQualifyLead`; `threw` is set when `record.fullName` is not a
        string, so that `split` throws before anything is written. */
    method HandleQualifyLead(store: Store, t: Readings) returns (threw: bool)
      modifies store
      ensures store.Contents() == QualifySpec(old(store.Contents()), entityType, id, record, t)
      ensures threw <==> entityType == "Lead" && record.Some? && !Field(record.value, "fullName").Str?
    {
      threw := false;
      if entityType == "Lead" && record.Some? {
        var lead := record.value;
        var fullName := Field(lead, "fullName");
        if !fullName.Str? {
          threw := true;
          return;
        }
        var newContact := NewContact(lead, fullName.s, t);
        store.Add("Contact", newContact);
        var newOpp := NewOpportunity(lead, Field(newContact, "id"), t);
        store.Add("Opportunity", newOpp);
        store.Update("Lead", id, QualifiedStatus);
      }
    }
  }
}
