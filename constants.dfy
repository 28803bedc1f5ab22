/** The in-memory record store `appStore` and its seed data: five
    insertion-ordered collections reached through a string entity name. */
module Constants {
  import opened Text
  import opened Records

  /** The five list-valued properties of the store object. */
  datatype Kind = Accounts | Contacts | Leads | Opportunities | Activities

  /** `(this as any)[name]`: the collection a property name denotes. The
      store's other properties (`get`, `add`, `update`, `delete`, and those
      every object inherits) never end in a lower-case "s", so no other name
      can be reached through the fallback. */
  function CollectionNamed(name: string): Option<Kind>
  {
    if name == "accounts" then Some(Accounts)
    else if name == "contacts" then Some(Contacts)
    else if name == "leads" then Some(Leads)
    else if name == "opportunities" then Some(Opportunities)
    else if name == "activities" then Some(Activities)
    else None
  }

  /** The lower-case name that the fallback `entity.toLowerCase() + 's'` must
      produce before the final "s" to reach a collection. */
  function Stem(k: Kind): string
  {
    match k
    case Accounts => "account"
    case Contacts => "contact"
    case Leads => "lead"
    case Opportunities => "opportunitie"
    case Activities => "activitie"
  }

  /** How `get` resolves a name: the three portfolio aliases first, then the
      lower-cased name with an "s" appended. */
  function Resolve(entity: string): (r: Option<Kind>)
    ensures r.Some? && entity != "Experience" && entity != "Education" && entity != "Projects" ==>
      Lower(entity) == Stem(r.value)
    ensures r.None? <==>
      (entity != "Experience" && entity != "Education" && entity != "Projects" && forall k :: Lower(entity) != Stem(k))
  {
    FallbackIff(entity, Accounts);
    FallbackIff(entity, Contacts);
    FallbackIff(entity, Leads);
    FallbackIff(entity, Opportunities);
    FallbackIff(entity, Activities);
    if entity == "Experience" then Some(Accounts)
    else if entity == "Education" then Some(Contacts)
    else if entity == "Projects" then Some(Opportunities)
    else CollectionNamed(Lower(entity) + "s")
  }

  /** How `add`, `update` and `delete` resolve a name: the fallback is
      computed first and the aliases then overwrite it. */
  function WriteTarget(entity: string): Option<Kind>
  {
    var listName0 := Lower(entity) + "s";
    var listName1 := if entity == "Experience" then "accounts" else listName0;
    var listName2 := if entity == "Education" then "contacts" else listName1;
    var listName3 := if entity == "Projects" then "opportunities" else listName2;
    CollectionNamed(listName3)
  }

  /** The fallback reaches collection `k` exactly when the lower-cased name is
      `k`'s stem: "Lead" reaches leads, but "Opportunity" and "Activity" reach
      nothing, since "opportunitys" and "activitys" are not collections. */
  lemma FallbackIff(entity: string, k: Kind)
    ensures CollectionNamed(Lower(entity) + "s") == Some(k) <==> Lower(entity) == Stem(k)
  {
    var n := Lower(entity);
    NamedIff(n + "s", k);
    if n + "s" == Stem(k) + "s" {
      assert n == (n + "s")[..|n|];
      assert Stem(k) == (Stem(k) + "s")[..|Stem(k)|];
    }
  }

  /** A property name denotes collection `k` exactly when it is `k`'s stem
      followed by "s". */
  lemma NamedIff(name: string, k: Kind)
    ensures CollectionNamed(name) == Some(k) <==> name == Stem(k) + "s"
  {
    match k
    case Accounts => assert Stem(k) + "s" == "accounts";
    case Contacts => assert Stem(k) + "s" == "contacts";
    case Leads => assert Stem(k) + "s" == "leads";
    case Opportunities => assert Stem(k) + "s" == "opportunities";
    case Activities => assert Stem(k) + "s" == "activities";
  }

  /** Reads and writes resolve every name identically. */
  lemma ResolveAgrees(entity: string)
    ensures Resolve(entity) == WriteTarget(entity)
  {
  }

  /** The name the app passes for each entity kind and each alias, and where
      the store sends it. */
  lemma ResolveTable()
    ensures Resolve("Experience") == Some(Accounts)
    ensures Resolve("Education") == Some(Contacts)
    ensures Resolve("Projects") == Some(Opportunities)
    ensures Resolve("Account") == Some(Accounts)
    ensures Resolve("Contact") == Some(Contacts)
    ensures Resolve("Lead") == Some(Leads)
    ensures Resolve("Opportunity") == None
    ensures Resolve("Activity") == None
  {
    ResolveAccount();
    ResolveContact();
    ResolveLead();
    ResolveOpportunity();
    ResolveActivity();
  }

  lemma ResolveAccount()
    ensures Resolve("Account") == Some(Accounts)
  {
    LowerOf("Account", "account");
    assert "account" + "s" == "accounts";
  }

  lemma ResolveContact()
    ensures Resolve("Contact") == Some(Contacts)
  {
    LowerOf("Contact", "contact");
    assert "contact" + "s" == "contacts";
  }

  lemma ResolveLead()
    ensures Resolve("Lead") == Some(Leads)
  {
    LowerOf("Lead", "lead");
    assert "lead" + "s" == "leads";
  }

  /** A name that is no alias and whose length is that of no stem resolves
      to nothing. */
  lemma ResolveNoneByLength(entity: string)
    requires entity != "Experience" && entity != "Education" && entity != "Projects"
    requires |entity| != 4 && |entity| != 7 && |entity| != 9 && |entity| != 12
    ensures Resolve(entity) == None
  {
    forall k ensures Lower(entity) != Stem(k) {
      assert |Stem(k)| != |Lower(entity)|;
    }
  }

  lemma ResolveOpportunity()
    ensures Resolve("Opportunity") == None
  {
    ResolveNoneByLength("Opportunity");
  }

  lemma ResolveActivity()
    ensures Resolve("Activity") == None
  {
    ResolveNoneByLength("Activity");
  }

  /** A name reaches the activities collection only if it lower-cases to
      "activitie"; in particular none of the names the app uses does. */
  lemma ActivitiesReachableOnlyAs(entity: string)
    ensures Resolve(entity) == Some(Activities) <==> Lower(entity) == "activitie"
  {
    FallbackIff(entity, Activities);
    if entity == "Experience" || entity == "Education" || entity == "Projects" {
      assert Lower(entity)[0] != 'a';
    }
  }

  /** The store's state: the five collections as values. */
  datatype Collections = Collections(
    accounts: seq<Record>,
    contacts: seq<Record>,
    leads: seq<Record>,
    opportunities: seq<Record>,
    activities: seq<Record>)
  {
    function Of(k: Kind): seq<Record>
    {
      match k
      case Accounts => accounts
      case Contacts => contacts
      case Leads => leads
      case Opportunities => opportunities
      case Activities => activities
    }

    /** The state with one collection replaced and the other four kept. */
    function With(k: Kind, s: seq<Record>): (c: Collections)
      ensures c.Of(k) == s
      ensures forall k' :: k' != k ==> c.Of(k') == Of(k')
    {
      match k
      case Accounts => this.(accounts := s)
      case Contacts => this.(contacts := s)
      case Leads => this.(leads := s)
      case Opportunities => this.(opportunities := s)
      case Activities => this.(activities := s)
    }

    /** Ids are unique within each collection. */
    predicate Valid()
    {
      forall k :: IdsUnique(Of(k))
    }
  }

  /** `get(entity)`: the resolved collection, or `[]` when the name resolves
      to nothing. */
  function GetSpec(c: Collections, entity: string): seq<Record>
  {
    match Resolve(entity)
    case None => []
    case Some(k) => c.Of(k)
  }

  /** `add(entity, item)`: the item is appended to the resolved collection. */
  function AddSpec(c: Collections, entity: string, item: Record): (r: Collections)
    ensures WriteTarget(entity).None? ==> r == c
    ensures WriteTarget(entity).Some? ==> r.Of(WriteTarget(entity).value) == c.Of(WriteTarget(entity).value) + [item]
    ensures forall k :: Some(k) != WriteTarget(entity) ==> r.Of(k) == c.Of(k)
  {
    match WriteTarget(entity)
    case None => c
    case Some(k) => c.With(k, c.Of(k) + [item])
  }

  /** `update(entity, id, updates)`: the first record with that id in the
      resolved collection is shallow-merged with `updates`. */
  function UpdateSpec(c: Collections, entity: string, id: string, updates: Record): (r: Collections)
    ensures WriteTarget(entity).None? ==> r == c
    ensures WriteTarget(entity).Some? ==> r.Of(WriteTarget(entity).value) == UpdateFirst(c.Of(WriteTarget(entity).value), id, updates)
    ensures forall k :: Some(k) != WriteTarget(entity) ==> r.Of(k) == c.Of(k)
  {
    match WriteTarget(entity)
    case None => c
    case Some(k) => c.With(k, UpdateFirst(c.Of(k), id, updates))
  }

  /** `delete(entity, id)`: the first record with that id in the resolved
      collection is removed. */
  function DeleteSpec(c: Collections, entity: string, id: string): (r: Collections)
    ensures WriteTarget(entity).None? ==> r == c
    ensures WriteTarget(entity).Some? ==> r.Of(WriteTarget(entity).value) == RemoveFirst(c.Of(WriteTarget(entity).value), id)
    ensures forall k :: Some(k) != WriteTarget(entity) ==> r.Of(k) == c.Of(k)
  {
    match WriteTarget(entity)
    case None => c
    case Some(k) => c.With(k, RemoveFirst(c.Of(k), id))
  }

  /** Reading "Activity" always yields nothing, whatever the store holds. */
  lemma GetActivityEmpty(c: Collections)
    ensures GetSpec(c, "Activity") == []
  {
    ResolveTable();
  }

  /** Writes through "Opportunity" or "Activity" change nothing. */
  lemma UnresolvedWritesAreNoOps(c: Collections, item: Record, id: string, updates: Record)
    ensures AddSpec(c, "Opportunity", item) == c && AddSpec(c, "Activity", item) == c
    ensures UpdateSpec(c, "Opportunity", id, updates) == c && UpdateSpec(c, "Activity", id, updates) == c
    ensures DeleteSpec(c, "Opportunity", id) == c && DeleteSpec(c, "Activity", id) == c
  {
    ResolveTable();
    ResolveAgrees("Opportunity");
    ResolveAgrees("Activity");
  }

  /** An alias reads the same collection as a direct access to it. */
  lemma AliasesReadCollections(c: Collections)
    ensures GetSpec(c, "Experience") == c.accounts
    ensures GetSpec(c, "Education") == c.contacts
    ensures GetSpec(c, "Projects") == c.opportunities
  {
  }

  /** Adding then reading through the same name shows the item at the end,
      after everything that was there. */
  lemma AddThenGet(c: Collections, entity: string, item: Record)
    requires Resolve(entity).Some?
    ensures GetSpec(AddSpec(c, entity, item), entity) == GetSpec(c, entity) + [item]
  {
    ResolveAgrees(entity);
  }

  /** Insertion order is kept: three adds read back in order. */
  lemma AddsReadInOrder(c: Collections, entity: string, a: Record, b: Record, d: Record)
    requires Resolve(entity).Some?
    ensures GetSpec(AddSpec(AddSpec(AddSpec(c, entity, a), entity, b), entity, d), entity) == GetSpec(c, entity) + [a, b, d]
  {
    AddThenGet(c, entity, a);
    AddThenGet(AddSpec(c, entity, a), entity, b);
    AddThenGet(AddSpec(AddSpec(c, entity, a), entity, b), entity, d);
  }

  /** Updating then reading shows the merged record in place of the first
      match, with the length and the order of the collection kept. */
  lemma UpdateThenGet(c: Collections, entity: string, id: string, updates: Record)
    ensures GetSpec(UpdateSpec(c, entity, id, updates), entity) == UpdateFirst(GetSpec(c, entity), id, updates)
  {
    ResolveAgrees(entity);
  }

  /** Deleting then reading shows the collection without its first match. */
  lemma DeleteThenGet(c: Collections, entity: string, id: string)
    ensures GetSpec(DeleteSpec(c, entity, id), entity) == RemoveFirst(GetSpec(c, entity), id)
  {
    ResolveAgrees(entity);
  }

  /** With unique ids, no record with the deleted id is left to read. */
  lemma DeleteLeavesNoId(c: Collections, entity: string, id: string)
    requires c.Valid()
    ensures forall r :: r in GetSpec(DeleteSpec(c, entity, id), entity) ==> !HasId(r, id)
  {
    DeleteThenGet(c, entity, id);
    if Resolve(entity).Some? {
      RemoveFirstRemovesAll(c.Of(Resolve(entity).value), id);
    }
  }

  /** Deleting keeps ids unique. */
  lemma DeleteKeepsValid(c: Collections, entity: string, id: string)
    requires c.Valid()
    ensures DeleteSpec(c, entity, id).Valid()
  {
    if WriteTarget(entity).Some? {
      RemoveFirstKeepsUnique(c.Of(WriteTarget(entity).value), id);
      assert forall k' :: IdsUnique(DeleteSpec(c, entity, id).Of(k'));
    }
  }

  /** Updating without changing the id keeps ids unique. */
  lemma UpdateKeepsValid(c: Collections, entity: string, id: string, updates: Record)
    requires c.Valid()
    requires "id" !in updates || updates["id"] == Str(id)
    ensures UpdateSpec(c, entity, id, updates).Valid()
  {
    if WriteTarget(entity).Some? {
      UpdateFirstKeepsUnique(c.Of(WriteTarget(entity).value), id, updates);
      assert forall k' :: IdsUnique(UpdateSpec(c, entity, id, updates).Of(k'));
    }
  }

  /** Adding a record whose id is new to its collection keeps ids unique. */
  lemma AddKeepsValid(c: Collections, entity: string, item: Record)
    requires c.Valid()
    requires WriteTarget(entity).Some? ==>
      forall r :: r in c.Of(WriteTarget(entity).value) && Field(r, "id").Str? ==> Field(r, "id") != Field(item, "id")
    ensures AddSpec(c, entity, item).Valid()
  {
    if WriteTarget(entity).Some? {
      var k := WriteTarget(entity).value;
      AppendKeepsUnique(c.Of(k), item);
      assert forall k' :: IdsUnique(AddSpec(c, entity, item).Of(k'));
    }
  }

  // Seed data: MOCK_EXPERIENCE, MOCK_EDUCATION, MOCK_PROJECTS,
  // MOCK_CONTACT_REQS and MOCK_ACTIVITIES.

  function Account(id: string, name: string, industry: string, phone: string, website: string,
                   address: string, createdOn: string): (r: Record)
    ensures Field(r, "id") == Str(id)
  {
    map["id" := Str(id), "name" := Str(name), "industry" := Str(industry), "phone" := Str(phone),
        "website" := Str(website), "address" := Str(address), "createdOn" := Str(createdOn),
        "ownerId" := Str("Shivam")]
  }

  function Contact(id: string, firstName: string, lastName: string, email: string, phone: string,
                   jobTitle: string, createdOn: string): (r: Record)
    ensures Field(r, "id") == Str(id)
  {
    map["id" := Str(id), "firstName" := Str(firstName), "lastName" := Str(lastName),
        "email" := Str(email), "phone" := Str(phone), "accountId" := Str("acc-1"),
        "jobTitle" := Str(jobTitle), "createdOn" := Str(createdOn), "ownerId" := Str("Shivam")]
  }

  function Project(id: string, name: string, accountId: string, contactId: string, stage: string,
                   estRevenue: int, closeDate: string, createdOn: string): (r: Record)
    ensures Field(r, "id") == Str(id)
  {
    map["id" := Str(id), "name" := Str(name), "accountId" := Str(accountId),
        "contactId" := Str(contactId), "stage" := Str(stage), "estRevenue" := Num(estRevenue),
        "closeDate" := Str(closeDate), "createdOn" := Str(createdOn), "ownerId" := Str("Shivam")]
  }

  function MockExperience(): seq<Record>
  {
    [
      Account("exp-1", "Enterprise Solutions Ltd", "Dynamics 365 Developer", "2022 - Present", "CRM/Dataverse",
              "Plugin Dev, Migrations, Automation", "2022-01-15"),
      Account("exp-2", "Global Tech Systems", "Software Developer", "2020 - 2022", ".NET/Backend",
              "C# APIs, SQL, System Integration", "2020-06-10"),
      Account("exp-3", "StartUp Innovators", "Junior Developer", "2019 - 2020", "Frontend/Web",
              "JavaScript, UI Customization", "2019-05-05")
    ]
  }

  function MockEducation(): seq<Record>
  {
    [
      Contact("edu-1", "Masters in", "Computer Science", "Graduated: 2023", "GPA: 3.8",
              "University of Technology", "2023-05-01"),
      Contact("edu-2", "Bachelors in", "Information Tech", "Graduated: 2021", "GPA: 3.9",
              "State University", "2021-05-01"),
      Contact("cert-1", "Microsoft Certified", "Power Platform Developer", "Issued: 2023", "PL-400",
              "Microsoft", "2023-08-15")
    ]
  }

  function MockProjects(): seq<Record>
  {
    [
      Project("proj-1", "Dataverse Migration", "exp-1", "edu-1", "Closed Won", 100, "C#, SSIS, Mapping", "2023-11-01"),
      Project("proj-2", "Banking CRM Automation", "exp-1", "edu-1", "Closed Won", 90, "Power Automate, Plugins", "2023-08-20"),
      Project("proj-3", "Sales Plugin Suite", "exp-2", "edu-2", "Closed Won", 95, ".NET SDK, C#", "2023-05-10"),
      Project("proj-4", "Customer Portal Sync", "exp-2", "edu-2", "Proposal", 60, "Azure Functions, Web API", "2024-01-15")
    ]
  }

  function MockContactReqs(): seq<Record>
  {
    [
      map["id" := Str("lead-1"), "fullName" := Str("Recruiter Name"), "company" := Str("Tech Corp"),
          "email" := Str("hiring@techcorp.com"), "phone" := Str("555-0120"), "status" := Str("New"),
          "source" := Str("LinkedIn"), "createdOn" := Str("2024-02-10"), "ownerId" := Str("System")]
    ]
  }

  function MockActivities(): seq<Record>
  {
    [
      map["id" := Str("act-1"), "type" := Str("Task"), "subject" := Str("Plugin Optimization"),
          "description" := Str("Refactor pre-validation logic for Account entity"),
          "dueDate" := Str("2024-02-01"), "status" := Str("Open"), "regardingId" := Str("proj-1"),
          "regardingType" := Str("Opportunity"), "createdOn" := Str("2024-01-20"), "ownerId" := Str("Shivam")]
    ]
  }

  /** The store as it starts: each collection a copy of its seed array. */
  function Seed(): Collections
  {
    Collections(MockExperience(), MockEducation(), MockContactReqs(), MockProjects(), MockActivities())
  }

  /** Distinct string ids, one per record, make ids unique. */
  lemma UniqueByIds(list: seq<Record>, ids: seq<string>)
    requires |ids| == |list|
    requires forall i :: 0 <= i < |list| ==> Field(list[i], "id") == Str(ids[i])
    requires forall i, j :: 0 <= i < j < |ids| ==> ids[i] != ids[j]
    ensures IdsUnique(list)
  {
  }

  /** The seeded store holds 3 accounts, 3 contacts, 1 lead, 4 opportunities
      and 1 activity, with ids unique in each collection. */
  lemma SeedShape()
    ensures |Seed().accounts| == 3 && |Seed().contacts| == 3 && |Seed().leads| == 1
    ensures |Seed().opportunities| == 4 && |Seed().activities| == 1
    ensures Seed().Valid()
  {
    var s := Seed();
    UniqueByIds(s.accounts, ["exp-1", "exp-2", "exp-3"]);
    UniqueByIds(s.contacts, ["edu-1", "edu-2", "cert-1"]);
    UniqueByIds(s.opportunities, ["proj-1", "proj-2", "proj-3", "proj-4"]);
    forall k ensures IdsUnique(s.Of(k)) {
    }
  }

  /** The `Store` class: five lists updated in place. */
  class Store {
    var accounts: seq<Record>
    var contacts: seq<Record>
    var leads: seq<Record>
    var opportunities: seq<Record>
    var activities: seq<Record>

    function Contents(): Collections
      reads this
    {
      Collections(accounts, contacts, leads, opportunities, activities)
    }

    constructor ()
      ensures Contents() == Seed()
    {
      accounts := MockExperience();
      contacts := MockEducation();
      leads := MockContactReqs();
      opportunities := MockProjects();
      activities := MockActivities();
    }

    /** Replaces the list held in property `k`. */
    method SetList(k: Kind, s: seq<Record>)
      modifies this
      ensures Contents() == old(Contents()).With(k, s)
    {
      match k
      case Accounts => accounts := s;
      case Contacts => contacts := s;
      case Leads => leads := s;
      case Opportunities => opportunities := s;
      case Activities => activities := s;
    }

    method Get(entity: string) returns (list: seq<Record>)
      ensures list == GetSpec(Contents(), entity)
    {
      if entity == "Experience" { return accounts; }
      if entity == "Education" { return contacts; }
      if entity == "Projects" { return opportunities; }
      var k := CollectionNamed(Lower(entity) + "s");
      if k.Some? {
        list := Contents().Of(k.value);
      } else {
        list := [];
      }
    }

    /** `listName` as the three write operations compute it. */
    static method ListName(entity: string) returns (listName: string)
      ensures CollectionNamed(listName) == WriteTarget(entity)
    {
      listName := Lower(entity) + "s";
      if entity == "Experience" { listName := "accounts"; }
      if entity == "Education" { listName := "contacts"; }
      if entity == "Projects" { listName := "opportunities"; }
    }

    method Add(entity: string, item: Record)
      modifies this
      ensures Contents() == AddSpec(old(Contents()), entity, item)
    {
      var listName := ListName(entity);
      var k := CollectionNamed(listName);
      if k.Some? {
        var list := Contents().Of(k.value);
        SetList(k.value, list + [item]);
      }
    }

    method Update(entity: string, id: string, updates: Record)
      modifies this
      ensures Contents() == UpdateSpec(old(Contents()), entity, id, updates)
    {
      var listName := ListName(entity);
      var k := CollectionNamed(listName);
      if k.Some? {
        var list := Contents().Of(k.value);
        var idx := FindIndex(list, id);
        assert idx == IndexOfId(list, id);
        if idx > -1 {
          list := list[idx := Merge(list[idx], updates)];
          SetList(k.value, list);
        }
      }
    }

    method Delete(entity: string, id: string)
      modifies this
      ensures Contents() == DeleteSpec(old(Contents()), entity, id)
    {
      var listName := ListName(entity);
      var k := CollectionNamed(listName);
      if k.Some? {
        var list := Contents().Of(k.value);
        var idx := FindIndex(list, id);
        assert idx == IndexOfId(list, id);
        if idx > -1 {
          SetList(k.value, list[..idx] + list[idx + 1..]);
        }
      }
    }
  }
}
