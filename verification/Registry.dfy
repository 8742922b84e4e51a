/**
 * The resource registry: the closed catalogue of resource types, loaded once
 * and never changed. For each type it gives the fields a listing may be
 * sorted on, the relationships a document may include, the validation rules
 * of its create and update operations, and its relationships in declaration
 * order. Rule strings are held already split into their rules.
 */
module Registry {
  import opened Wrappers
  import opened Payload
  import opened Rules

  datatype Operation = Create | Update

  /** A relationship: the type of the related resources and the accessor that yields them. */
  datatype Relationship = Relationship(targetType: string, accessor: string)

  datatype Descriptor = Descriptor(
    allowedSorts: seq<string>,
    allowedIncludes: seq<string>,
    createRules: seq<FieldRules>,
    updateRules: seq<FieldRules>,
    relationships: seq<Relationship>)

  datatype RegistryError = UnknownResourceType(name: string)

  /** The registered type names, in declaration order. */
  const TypeNames: seq<string> := ["users", "categories", "projects", "tasks", "groups"]

  /** The rules of `data.attributes.<name>`. */
  function AttributeRules(name: string, rules: seq<Rule>): FieldRules {
    FieldRules(Field(["data", "attributes", name]), rules)
  }

  const Users := Descriptor(
    ["name", "created_at", "updated_at"],
    ["invitations", "projects", "tasksAssigned"],
    [ AttributeRules("name", [Required, IsString, Max(255)]),
      AttributeRules("email", [Required, IsString, Email, Unique("users", "email")]),
      AttributeRules("password", [Required, IsString, Min(6), Confirmed]) ],
    [ AttributeRules("name", [Sometimes, IsString]),
      AttributeRules("profile_avatar", [Sometimes, Image, Mimes(["jpg", "png", "jpeg", "svg"])]),
      AttributeRules("email", [Sometimes, Email, Unique("users", "email")]),
      AttributeRules("username", [Sometimes, IsString, Unique("users", "username")]),
      AttributeRules("status", [Sometimes, IsBoolean]) ],
    [ Relationship("projects", "invitations"),
      Relationship("projects", "projects"),
      Relationship("tasks", "tasksAssigned") ])

  const Categories := Descriptor(
    ["title", "created_at"],
    ["tasks"],
    [],
    [],
    [ Relationship("tasks", "tasks") ])

  const Projects := Descriptor(
    ["name", "created_at", "updated_at"],
    ["invitees", "creator", "tasks"],
    [ AttributeRules("name", [Required, IsString, Unique("projects", "name")]) ],
    [ AttributeRules("name", [Sometimes, IsString]),
      AttributeRules("profile_avatar", [Sometimes, Image, Mimes(["jpg", "png", "jpeg", "svg"])]),
      AttributeRules("email", [Sometimes, Email, Unique("users", "email")]),
      AttributeRules("username", [Sometimes, IsString, Unique("users", "username")]),
      AttributeRules("status", [Sometimes, IsBoolean]) ],
    [ Relationship("users", "invitees"),
      Relationship("users", "creator"),
      Relationship("tasks", "tasks") ])

  const Tasks := Descriptor(
    ["title", "created_at", "updated_at"],
    ["assignees"],
    [ AttributeRules("title", [Required, IsString, Unique("tasks", "title")]),
      AttributeRules("description", [IsString]),
      AttributeRules("project_id", [Required, IsInteger]),
      AttributeRules("deadline", [DateFormat("Y-m-d H:i:s")]) ],
    [ AttributeRules("title", [Sometimes, Required, IsString, Unique("tasks", "title")]),
      AttributeRules("description", [Sometimes, IsString]),
      AttributeRules("project_id", [Sometimes, Required, IsInteger]),
      AttributeRules("category_id", [Sometimes, Required, IsInteger]),
      AttributeRules("group_id", [Sometimes, Required, IsInteger]),
      AttributeRules("deadline", [Sometimes, DateFormat("Y-m-d H:i:s")]) ],
    [ Relationship("users", "assignees") ])

  const Groups := Descriptor(
    ["title", "created_at", "updated_at"],
    [],
    [ AttributeRules("title", [Required, IsString, Unique("groups", "title")]),
      AttributeRules("project_id", [Required, IsInteger]),
      AttributeRules("user_id", [Required, IsInteger]) ],
    [ AttributeRules("title", [Sometimes, Required, IsString, Unique("groups", "title")]),
      AttributeRules("project_id", [Sometimes, Required, IsInteger]),
      AttributeRules("user_id", [Sometimes, Required, IsInteger]) ],
    [])

  const Resources: map<string, Descriptor> :=
    map["users" := Users, "categories" := Categories, "projects" := Projects, "tasks" := Tasks, "groups" := Groups]

  /** The descriptor of a registered type; any other name is an unknown resource type. */
  function Describe(name: string): (r: Result<Descriptor, RegistryError>)
    ensures r.Success? <==> name in TypeNames
    ensures r.Success? ==> r.value == Resources[name]
    ensures r.Failure? ==> r.error == UnknownResourceType(name)
  {
    if name in Resources then Success(Resources[name]) else Failure(UnknownResourceType(name))
  }

  /** Whether a listing of `name` may be sorted on `field`. */
  function IsSortAllowed(name: string, field: string): (b: bool)
    ensures b ==> name in TypeNames
  {
    match Describe(name)
    case Success(d) => field in d.allowedSorts
    case Failure(_) => false
  }

  /** Whether a document of type `name` may include the relationship `relation`. */
  function IsIncludeAllowed(name: string, relation: string): (b: bool)
    ensures b ==> name in TypeNames
  {
    match Describe(name)
    case Success(d) => relation in d.allowedIncludes
    case Failure(_) => false
  }

  /** The rule list of an operation on a registered type. */
  function RulesFor(name: string, op: Operation): (r: Result<seq<FieldRules>, RegistryError>)
    ensures r.Success? <==> name in TypeNames
    ensures r.Success? ==> r.value == if op == Create then Resources[name].createRules else Resources[name].updateRules
  {
    match Describe(name)
    case Success(d) => Success(if op == Create then d.createRules else d.updateRules)
    case Failure(e) => Failure(e)
  }

  // ---------------------------------------------------------------------
  // Consistency of the catalogue
  // ---------------------------------------------------------------------

  /** Exactly five names are registered, and every other name fails lookup. */
  lemma ExactlyFiveTypes(name: string)
    ensures |Resources| == 5
    ensures Resources.Keys == {"users", "categories", "projects", "tasks", "groups"}
    ensures Describe(name).Failure? <==> name !in {"users", "categories", "projects", "tasks", "groups"}
  {
  }

  /** The includable relationships of every type are exactly the accessors of its relationships. */
  lemma IncludesMatchRelationships(name: string)
    requires name in Resources
    ensures (set i | i in Resources[name].allowedIncludes) == (set r | r in Resources[name].relationships :: r.accessor)
  {
  }

  /** Every relationship leads to a registered type. */
  lemma RelationshipTargetsRegistered(name: string, r: Relationship)
    requires name in Resources && r in Resources[name].relationships
    ensures r.targetType in Resources
  {
  }

  /** Tasks can be sorted on their title and their timestamps and on nothing else. */
  lemma TaskSorts(field: string)
    ensures IsSortAllowed("tasks", field) <==> field in {"title", "created_at", "updated_at"}
  {
  }

  /** Sorting is allowed only on a registered type, and there only on its listed fields. */
  lemma SortAllowedIff(name: string, field: string)
    ensures IsSortAllowed(name, field) <==> name in Resources && field in Resources[name].allowedSorts
  {
  }

  /** Including is allowed only on a registered type, and there only for its listed relationships. */
  lemma IncludeAllowedIff(name: string, relation: string)
    ensures IsIncludeAllowed(name, relation) <==> name in Resources && relation in Resources[name].allowedIncludes
  {
  }

  /** Groups include nothing. */
  lemma GroupsIncludeNothing(relation: string)
    ensures !IsIncludeAllowed("groups", relation)
  {
  }

  /** Every user update rule starts with `sometimes`. */
  lemma UsersUpdateRulesAreOptional()
    ensures forall f :: f in Users.updateRules ==> f.path.Field? && |f.rules| > 0 && f.rules[0] == Sometimes
  {
  }

  /** The rules the registry gives for creating and for updating a user. */
  lemma UsersRules()
    ensures RulesFor("users", Create) == Success(Users.createRules)
    ensures RulesFor("users", Update) == Success(Users.updateRules)
  {
  }

  /** The attributes a user update may change, in the order of its rules. */
  const UpdatableUserAttributes: seq<string> := ["name", "profile_avatar", "email", "username", "status"]

  /** Each user update rule is an optional rule on `data.attributes.<name>` of an updatable attribute. */
  lemma UsersUpdateFields()
    ensures |Users.updateRules| == |UpdatableUserAttributes|
    ensures forall i :: 0 <= i < |Users.updateRules| ==>
              Users.updateRules[i].path == Field(["data", "attributes", UpdatableUserAttributes[i]]) &&
              Sometimes in Users.updateRules[i].rules
  {
  }

  /** A user update that carries none of the updatable attributes violates no rule. */
  lemma UsersUpdateWithoutAttributesPasses(doc: Json, ext: External)
    requires forall k :: k in UpdatableUserAttributes ==> !Has(doc, ["data", "attributes", k])
    ensures Validate(doc, ext, Users.updateRules) == []
  {
    UsersUpdateFields();
    AbsentAttributesPass(doc, ext, Users.updateRules, UpdatableUserAttributes);
  }

  /** Optional rules on `data.attributes.<name>` pass when none of the names is present. */
  lemma AbsentAttributesPass(doc: Json, ext: External, fields: seq<FieldRules>, names: seq<string>)
    requires |fields| == |names|
    requires forall i :: 0 <= i < |fields| ==>
               fields[i].path == Field(["data", "attributes", names[i]]) && Sometimes in fields[i].rules
    requires forall k :: k in names ==> !Has(doc, ["data", "attributes", k])
    ensures Validate(doc, ext, fields) == []
  {
    forall i | 0 <= i < |fields|
      ensures fields[i].path.Field? && Sometimes in fields[i].rules && !Has(doc, fields[i].path.keys)
    {
      assert names[i] in names;
    }
    OptionalFieldsAbsentPass(doc, ext, fields);
  }

  lemma DottedAttribute(k: string)
    ensures Dotted(["data", "attributes", k]) == "data.attributes." + k
  {
    JoinThree("data", "attributes", k, ".");
    assert "data" + "." + "attributes" + "." == "data.attributes.";
  }

  lemma SlashedAttribute(k: string)
    ensures "/" + Join(["data", "attributes", k], "/") == "/data/attributes/" + k
  {
    JoinThree("data", "attributes", k, "/");
    assert "/" + ("data" + "/" + "attributes" + "/" + k) == "/" + "data" + "/" + "attributes" + "/" + k;
    assert "/" + "data" + "/" + "attributes" + "/" == "/data/attributes/";
  }

  /** The pointer and the display name of `data.attributes.<k>` for a plain attribute name. */
  lemma AttributeNames(k: string)
    requires '.' !in k && '_' !in k
    ensures Pointer(Dotted(["data", "attributes", k])) == "/data/attributes/" + k
    ensures Replace(Dotted(["data", "attributes", k]), '_', ' ') == "data.attributes." + k
  {
    AttributePointer(k);
    AttributeDisplayName(k);
  }

  lemma AttributePointer(k: string)
    requires '.' !in k
    ensures Pointer(Dotted(["data", "attributes", k])) == "/data/attributes/" + k
  {
    var keys := ["data", "attributes", k];
    assert forall x :: x in keys ==> '.' !in x;
    PointerOfDotted(keys);
    SlashedAttribute(k);
  }

  lemma AttributeDisplayName(k: string)
    requires '_' !in k
    ensures Replace(Dotted(["data", "attributes", k]), '_', ' ') == "data.attributes." + k
  {
    DottedAttribute(k);
    assert '_' !in "data.attributes." + k;
    ReplaceAbsent(Dotted(["data", "attributes", k]), '_', ' ');
  }

  lemma RequiredMessage(k: string)
    ensures "The " + ("data.attributes." + k) + " field is required." == "The data.attributes." + k + " field is required."
  {
  }

  lemma CredentialNamesArePlain(k: string)
    requires k in ["name", "email", "password"]
    ensures '.' !in k && '_' !in k
  {
    if k == "name" {
    } else if k == "email" {
    } else {
      assert k == "password";
    }
  }

  /** An absent attribute whose rules start with `required` is reported at its pointer as required. */
  lemma RequiredAttributeReported(doc: Json, ext: External, fields: seq<FieldRules>, i: nat, k: string)
    requires i < |fields| && fields[i].path == Field(["data", "attributes", k])
    requires |fields[i].rules| > 0 && fields[i].rules[0] == Required && Sometimes !in fields[i].rules
    requires '.' !in k && '_' !in k && !Has(doc, ["data", "attributes", k])
    ensures ValidationError("/data/attributes/" + k, "The data.attributes." + k + " field is required.")
              in Validate(doc, ext, fields)
  {
    var keys := ["data", "attributes", k];
    assert fields[i] == FieldRules(Field(keys), fields[i].rules);
    RequiredAbsentReported(doc, ext, keys, fields[i].rules);
    ValidateContains(doc, ext, fields, i);
    AttributeNames(k);
    RequiredMessage(k);
  }

  /** Creating a user without a name, an e-mail or a password reports that attribute as required. */
  lemma UsersCreateRequiresCredentials(doc: Json, ext: External, k: string)
    requires k in ["name", "email", "password"]
    requires !Has(doc, ["data", "attributes", k])
    ensures ValidationError("/data/attributes/" + k, "The data.attributes." + k + " field is required.")
              in Validate(doc, ext, Users.createRules)
  {
    var i := if k == "name" then 0 else if k == "email" then 1 else 2;
    assert Users.createRules[i].path == Field(["data", "attributes", k]);
    assert Users.createRules[i].rules[0] == Required && Sometimes !in Users.createRules[i].rules;
    CredentialNamesArePlain(k);
    RequiredAttributeReported(doc, ext, Users.createRules, i, k);
  }
}
