/**
 * The request that replaces a relationship's linkage. Its `data` member must
 * be present and be an array or null: a single resource identifier, a list
 * of them, an empty list or null. The keys `data.id` and `data.type` want a
 * single identifier's `id` when it has a `type` and its `type` when it has an
 * `id`; the wildcard keys `data.*.id` and `data.*.type` want every entry of
 * `data` to be an identifier with a string `id` and a registered `type`.
 * Since the wildcard keys reach the members of a single identifier too, a
 * single identifier that has an `id` or a `type` is never accepted; the
 * request meant for single identifiers is `IntendedErrors` below.
 */
module RelationshipRequest {
  import opened Wrappers
  import opened Payload
  import opened Rules
  import opened Registry

  /** Every authenticated caller may send the request. */
  function Authorize(): (allowed: bool)
    ensures allowed
  {
    true
  }

  const RelationshipRules: seq<FieldRules> := [
    FieldRules(Field(["data"]), [Present, IsArray, Nullable]),
    FieldRules(Field(["data", "id"]), [RequiredIfHas(["data", "type"]), IsString]),
    FieldRules(Field(["data", "type"]), [RequiredIfHas(["data", "id"]), In(TypeNames)]),
    FieldRules(EachElement(["data"], "id"), [Required, IsString]),
    FieldRules(EachElement(["data"], "type"), [Required, In(TypeNames)])
  ]

  /** The errors the request reports for a body. */
  function RelationshipErrors(doc: Json, ext: External): seq<ValidationError> {
    Validate(doc, ext, RelationshipRules)
  }

  /** An identifier's `id`: a string that is not blank. */
  predicate IdOk(c: Option<Json>) {
    c.Some? && c.value.JString? && !IsBlank(c.value.s)
  }

  /** An identifier's `type`: the name of a registered resource type. */
  predicate TypeOk(c: Option<Json>) {
    c.Some? && c.value.JString? && c.value.s in TypeNames
  }

  /** A resource identifier object; a scalar or null has no members and is none. */
  predicate IdentifierOk(v: Json) {
    IdOk(Child(v, "id")) && TypeOk(Child(v, "type"))
  }

  // ---------------------------------------------------------------------
  // One element of a list
  // ---------------------------------------------------------------------

  /** Every registered type name is a lower-case word. */
  lemma TypeNamesAreWords()
    ensures forall o :: o in TypeNames ==> IsWord(o)
  {
  }

  /** `required|string` on an element's `id`. */
  lemma ElementIdPasses(doc: Json, ext: External, t: Target)
    ensures AttributeErrors(doc, ext, [Required, IsString], t) == [] <==> IdOk(t.value)
  {
    RequiredStringPasses(doc, ext, t);
  }

  /** `required|in:<types>` on an element's `type`. */
  lemma ElementTypePasses(doc: Json, ext: External, t: Target)
    ensures AttributeErrors(doc, ext, [Required, In(TypeNames)], t) == [] <==> TypeOk(t.value)
  {
    TypeNamesAreWords();
    RequiredInPasses(doc, ext, t, TypeNames);
  }

  // ---------------------------------------------------------------------
  // Lists of identifiers
  // ---------------------------------------------------------------------

  /** A list has no `id` or `type` key of its own. */
  lemma ListHasNoOwnMembers(doc: Json, items: seq<Json>)
    requires Get(doc, ["data"]) == Some(JArray(items))
    ensures Get(doc, ["data", "id"]) == None && Get(doc, ["data", "type"]) == None
  {
    GetAppend(doc, ["data"], "id");
    GetAppend(doc, ["data"], "type");
    assert !IsDigit("id"[0]) && !IsDigit("type"[0]);
  }

  /** `data` passes when it is an array or null. */
  lemma DataKeyPasses(doc: Json, ext: External)
    requires Get(doc, ["data"]).Some? && (IsArrayLike(Get(doc, ["data"]).value) || Get(doc, ["data"]).value == JNull)
    ensures FieldErrors(doc, ext, RelationshipRules[0]) == []
  {
    var rules := [Present, IsArray, Nullable];
    var t := Target(["data"], Get(doc, ["data"]), false);
    ExplicitKeyErrors(doc, ext, ["data"], rules);
    assert Holds(doc, ext, rules, t, rules[0]) && Holds(doc, ext, rules, t, rules[1]) && Holds(doc, ext, rules, t, rules[2]);
  }

  /** `data.id` and `data.type` pass a body that has neither. */
  lemma SingularKeysPassWhenAbsent(doc: Json, ext: External)
    requires Get(doc, ["data", "id"]) == None && Get(doc, ["data", "type"]) == None
    ensures FieldErrors(doc, ext, RelationshipRules[1]) == [] && FieldErrors(doc, ext, RelationshipRules[2]) == []
  {
    AbsentIdPasses(doc, ext);
    AbsentTypePasses(doc, ext);
  }

  lemma AbsentIdPasses(doc: Json, ext: External)
    requires Get(doc, ["data", "id"]) == None && Get(doc, ["data", "type"]) == None
    ensures FieldErrors(doc, ext, RelationshipRules[1]) == []
  {
    var rules := [RequiredIfHas(["data", "type"]), IsString];
    ExplicitKeyErrors(doc, ext, ["data", "id"], rules);
    assert Holds(doc, ext, rules, Target(["data", "id"], None, false), rules[0]);
  }

  lemma AbsentTypePasses(doc: Json, ext: External)
    requires Get(doc, ["data", "id"]) == None && Get(doc, ["data", "type"]) == None
    ensures FieldErrors(doc, ext, RelationshipRules[2]) == []
  {
    var rules := [RequiredIfHas(["data", "id"]), In(TypeNames)];
    ExplicitKeyErrors(doc, ext, ["data", "type"], rules);
    assert Holds(doc, ext, rules, Target(["data", "type"], None, false), rules[0]);
  }

  /** The wildcard keys pass exactly when every entry of `data`, whatever its value, is a valid identifier. */
  lemma EntriesPass(doc: Json, ext: External, d: Json)
    requires Get(doc, ["data"]) == Some(d)
    ensures (FieldErrors(doc, ext, RelationshipRules[3]) == [] && FieldErrors(doc, ext, RelationshipRules[4]) == []) <==>
            forall j :: 0 <= j < |Children(d)| ==> IdentifierOk(Children(d)[j].1)
  {
    EntryIdsPass(doc, ext, d);
    EntryTypesPass(doc, ext, d);
  }

  /** `data.*.id` passes exactly when every entry of `data` has a non-blank string `id`. */
  lemma EntryIdsPass(doc: Json, ext: External, d: Json)
    requires Get(doc, ["data"]) == Some(d)
    ensures FieldErrors(doc, ext, RelationshipRules[3]) == [] <==>
            forall j :: 0 <= j < |Children(d)| ==> IdOk(Child(Children(d)[j].1, "id"))
  {
    var kids := Children(d);
    ElementTargetsPass(doc, ext, [Required, IsString], ["data"], "id", kids);
    forall j | 0 <= j < |kids|
      ensures (AttributeErrors(doc, ext, [Required, IsString], ElementTarget(["data"], "id", kids[j])) == []) == IdOk(Child(kids[j].1, "id"))
    {
      ElementIdPasses(doc, ext, ElementTarget(["data"], "id", kids[j]));
    }
  }

  /** `data.*.type` passes exactly when every entry of `data` has a registered `type`. */
  lemma EntryTypesPass(doc: Json, ext: External, d: Json)
    requires Get(doc, ["data"]) == Some(d)
    ensures FieldErrors(doc, ext, RelationshipRules[4]) == [] <==>
            forall j :: 0 <= j < |Children(d)| ==> TypeOk(Child(Children(d)[j].1, "type"))
  {
    var kids := Children(d);
    ElementTargetsPass(doc, ext, [Required, In(TypeNames)], ["data"], "type", kids);
    forall j | 0 <= j < |kids|
      ensures (AttributeErrors(doc, ext, [Required, In(TypeNames)], ElementTarget(["data"], "type", kids[j])) == []) == TypeOk(Child(kids[j].1, "type"))
    {
      ElementTypePasses(doc, ext, ElementTarget(["data"], "type", kids[j]));
    }
  }

  /** The wildcard keys pass a list exactly when each of its entries is a valid identifier. */
  lemma ListElementsPass(doc: Json, ext: External, items: seq<Json>)
    requires Get(doc, ["data"]) == Some(JArray(items))
    ensures (FieldErrors(doc, ext, RelationshipRules[3]) == [] && FieldErrors(doc, ext, RelationshipRules[4]) == []) <==>
            forall i :: 0 <= i < |items| ==> IdentifierOk(items[i])
  {
    EntriesPass(doc, ext, JArray(items));
    assert forall i :: 0 <= i < |items| ==> Children(JArray(items))[i].1 == items[i];
  }

  /** The request passes exactly when each of its five keys passes. */
  lemma AcceptedIffEveryKey(doc: Json, ext: External)
    ensures RelationshipErrors(doc, ext) == [] <==>
            && FieldErrors(doc, ext, RelationshipRules[0]) == []
            && FieldErrors(doc, ext, RelationshipRules[1]) == []
            && FieldErrors(doc, ext, RelationshipRules[2]) == []
            && FieldErrors(doc, ext, RelationshipRules[3]) == []
            && FieldErrors(doc, ext, RelationshipRules[4]) == []
  {
    ValidateEmptyOfFive(doc, ext, RelationshipRules);
  }

  /**
   * A list is accepted exactly when every entry in it is an identifier with a
   * non-blank string `id` and a registered `type`; a scalar or null entry is not.
   */
  lemma ListAcceptedIff(doc: Json, ext: External, items: seq<Json>)
    requires Get(doc, ["data"]) == Some(JArray(items))
    ensures RelationshipErrors(doc, ext) == [] <==>
            forall i :: 0 <= i < |items| ==> IdentifierOk(items[i])
  {
    AcceptedIffEveryKey(doc, ext);
    assert FieldErrors(doc, ext, RelationshipRules[0]) == [] by {
      DataKeyPasses(doc, ext);
    }
    assert FieldErrors(doc, ext, RelationshipRules[1]) == [] && FieldErrors(doc, ext, RelationshipRules[2]) == [] by {
      ListHasNoOwnMembers(doc, items);
      SingularKeysPassWhenAbsent(doc, ext);
    }
    ListElementsPass(doc, ext, items);
  }

  /** An empty list is accepted: it clears the relationship. */
  lemma EmptyListAccepted(doc: Json, ext: External)
    requires Get(doc, ["data"]) == Some(JArray([]))
    ensures RelationshipErrors(doc, ext) == []
  {
    ListAcceptedIff(doc, ext, []);
  }

  // ---------------------------------------------------------------------
  // Errors reported for one element of a list
  // ---------------------------------------------------------------------

  /** The attribute the wildcard key `data.*.<member>` reaches in the `i`-th element. */
  function ElementAttribute(items: seq<Json>, i: nat, member: string): (t: Target)
    requires i < |items|
    ensures t.keys == ["data", NatToString(i), member] && t.expanded
  {
    Target(["data", NatToString(i), member], Child(items[i], member), true)
  }

  /** The errors of an element's `id` or `type` are errors of the request. */
  lemma ElementErrorReported(doc: Json, ext: External, items: seq<Json>, i: nat, k: nat, member: string)
    requires Get(doc, ["data"]) == Some(JArray(items)) && i < |items|
    requires k < |RelationshipRules| && RelationshipRules[k] == FieldRules(EachElement(["data"], member), RelationshipRules[k].rules)
    ensures forall e :: e in AttributeErrors(doc, ext, RelationshipRules[k].rules, ElementAttribute(items, i, member)) ==>
                          e in RelationshipErrors(doc, ext)
  {
    var kids := Children(JArray(items));
    assert kids[i] == (NatToString(i), items[i]);
    assert ElementTarget(["data"], member, kids[i]) == ElementAttribute(items, i, member);
    ElementTargetReported(doc, ext, RelationshipRules[k].rules, ["data"], member, kids, i);
    ValidateContains(doc, ext, RelationshipRules, k);
  }

  lemma DigitsHaveNoDot(n: string)
    requires forall j :: 0 <= j < |n| ==> IsDigit(n[j])
    ensures '.' !in n
  {
  }

  lemma PrefixSlash(a: string, n: string, m: string)
    ensures "/" + (a + "/" + n + "/" + m) == ("/" + a + "/") + n + "/" + m
  {
  }

  lemma PrefixDot(a: string, n: string, m: string)
    ensures a + "." + n + "." + m == (a + ".") + n + "." + m
  {
  }

  lemma Regroup(p: string, q: string, n: string, r1: string, r2: string, t: string)
    ensures p + (q + n + r1 + r2) + t == (p + q) + n + (r1 + r2 + t)
  {
  }

  lemma Append3(x: string, y: string, z: string)
    ensures x + y + z == x + (y + z)
  {
  }

  /** The pointer and the name of `data.<n>.<member>`. */
  lemma ElementNames(n: string, member: string)
    requires forall j :: 0 <= j < |n| ==> IsDigit(n[j])
    requires member == "id" || member == "type"
    ensures Pointer(Dotted(["data", n, member])) == "/data/" + n + "/" + member
    ensures Dotted(["data", n, member]) == "data." + n + "." + member
  {
    var keys := ["data", n, member];
    DigitsHaveNoDot(n);
    assert '.' !in member;
    assert forall x :: x in keys ==> '.' !in x;
    PointerOfDotted(keys);
    JoinThree("data", n, member, "/");
    JoinThree("data", n, member, ".");
    PrefixSlash("data", n, member);
    PrefixDot("data", n, member);
    assert "/" + "data" + "/" == "/data/";
    assert "data" + "." == "data.";
  }

  /** The single error of an element attribute whose first failing rule is `r`. */
  lemma ElementError(doc: Json, ext: External, items: seq<Json>, i: nat, member: string, rules: seq<Rule>, r: Rule)
    requires i < |items| && (member == "id" || member == "type")
    requires Sometimes !in rules
    requires FirstFailure(doc, ext, rules, ElementAttribute(items, i, member), rules) == Some(r)
    ensures AttributeErrors(doc, ext, rules, ElementAttribute(items, i, member)) ==
            [ValidationError("/data/" + NatToString(i) + "/" + member, Message(r, "data." + NatToString(i) + "." + member, rules))]
  {
    ElementNames(NatToString(i), member);
  }

  /** The literal pieces of the element messages, joined. */
  lemma MessagePieces()
    ensures "The " + "data." == "The data."
    ensures "The selected " + "data." == "The selected data."
    ensures "/" + "id" == "/id" && "/" + "type" == "/type"
  {
  }

  lemma IdMessagePieces()
    ensures "." + "id" + " field is required." == ".id field is required."
    ensures "." + "id" + " must be a string." == ".id must be a string."
  {
  }

  lemma TypeMessagePieces()
    ensures "." + "type" + " field is required." == ".type field is required."
    ensures "." + "type" + " is invalid." == ".type is invalid."
  {
  }

  /** The error an element attribute reports, with its pointer and message spelled out. */
  lemma ElementErrorSpelled(doc: Json, ext: External, items: seq<Json>, i: nat, member: string, rules: seq<Rule>, r: Rule, lead: string, tail: string)
    requires i < |items| && (member == "id" || member == "type")
    requires Sometimes !in rules
    requires FirstFailure(doc, ext, rules, ElementAttribute(items, i, member), rules) == Some(r)
    requires Message(r, "data." + NatToString(i) + "." + member, rules) == lead + ("data." + NatToString(i) + "." + member) + tail
    ensures AttributeErrors(doc, ext, rules, ElementAttribute(items, i, member)) ==
            [ValidationError(("/data/" + NatToString(i)) + ("/" + member), (lead + "data.") + NatToString(i) + ("." + member + tail))]
  {
    var n := NatToString(i);
    var name := "data." + n + "." + member;
    ElementError(doc, ext, items, i, member, rules, r);
    assert "/data/" + n + "/" + member == ("/data/" + n) + ("/" + member) by {
      Append3("/data/" + n, "/", member);
    }
    assert lead + name + tail == (lead + "data.") + n + ("." + member + tail) by {
      Regroup(lead, "data.", n, ".", member, tail);
    }
  }

  /** A list element without an `id` is reported: "The data.<i>.id field is required." at /data/<i>/id. */
  lemma MissingElementIdReported(doc: Json, ext: External, items: seq<Json>, i: nat)
    requires Get(doc, ["data"]) == Some(JArray(items)) && i < |items|
    requires Child(items[i], "id") == None
    ensures ValidationError("/data/" + NatToString(i) + "/id", "The data." + NatToString(i) + ".id field is required.")
              in RelationshipErrors(doc, ext)
  {
    var rules := [Required, IsString];
    var t := ElementAttribute(items, i, "id");
    assert !Holds(doc, ext, rules, t, rules[0]);
    ElementErrorSpelled(doc, ext, items, i, "id", rules, Required, "The ", " field is required.");
    ElementErrorReported(doc, ext, items, i, 3, "id");
    MessagePieces();
    IdMessagePieces();
  }

  /** A list element whose `id` is given but is not a string is reported: "The data.<i>.id must be a string." */
  lemma NonStringElementIdReported(doc: Json, ext: External, items: seq<Json>, i: nat)
    requires Get(doc, ["data"]) == Some(JArray(items)) && i < |items|
    requires Child(items[i], "id").Some? && Filled(Child(items[i], "id").value) && !Child(items[i], "id").value.JString?
    ensures ValidationError("/data/" + NatToString(i) + "/id", "The data." + NatToString(i) + ".id must be a string.")
              in RelationshipErrors(doc, ext)
  {
    var rules := [Required, IsString];
    var t := ElementAttribute(items, i, "id");
    assert Holds(doc, ext, rules, t, rules[0]) && !Holds(doc, ext, rules, t, rules[1]);
    assert FirstFailure(doc, ext, rules, t, rules[1..]) == Some(IsString);
    ElementErrorSpelled(doc, ext, items, i, "id", rules, IsString, "The ", " must be a string.");
    ElementErrorReported(doc, ext, items, i, 3, "id");
    MessagePieces();
    IdMessagePieces();
  }

  /** A list element without a `type` is reported: "The data.<i>.type field is required." at /data/<i>/type. */
  lemma MissingElementTypeReported(doc: Json, ext: External, items: seq<Json>, i: nat)
    requires Get(doc, ["data"]) == Some(JArray(items)) && i < |items|
    requires Child(items[i], "type") == None
    ensures ValidationError("/data/" + NatToString(i) + "/type", "The data." + NatToString(i) + ".type field is required.")
              in RelationshipErrors(doc, ext)
  {
    var rules := [Required, In(TypeNames)];
    var t := ElementAttribute(items, i, "type");
    assert !Holds(doc, ext, rules, t, rules[0]);
    ElementErrorSpelled(doc, ext, items, i, "type", rules, Required, "The ", " field is required.");
    ElementErrorReported(doc, ext, items, i, 4, "type");
    MessagePieces();
    TypeMessagePieces();
  }

  /** A list element whose `type` names no registered type is reported: "The selected data.<i>.type is invalid." */
  lemma UnregisteredElementTypeReported(doc: Json, ext: External, items: seq<Json>, i: nat, name: string)
    requires Get(doc, ["data"]) == Some(JArray(items)) && i < |items|
    requires Child(items[i], "type") == Some(JString(name)) && !IsBlank(name) && name !in TypeNames
    ensures ValidationError("/data/" + NatToString(i) + "/type", "The selected data." + NatToString(i) + ".type is invalid.")
              in RelationshipErrors(doc, ext)
  {
    var rules := [Required, In(TypeNames)];
    var t := ElementAttribute(items, i, "type");
    assert Holds(doc, ext, rules, t, rules[0]) && !Holds(doc, ext, rules, t, rules[1]);
    assert FirstFailure(doc, ext, rules, t, rules[1..]) == Some(In(TypeNames));
    ElementErrorSpelled(doc, ext, items, i, "type", rules, In(TypeNames), "The selected ", " is invalid.");
    ElementErrorReported(doc, ext, items, i, 4, "type");
    MessagePieces();
    TypeMessagePieces();
  }

  // ---------------------------------------------------------------------
  // Null, absent and single-identifier data
  // ---------------------------------------------------------------------

  /** The wildcard keys reach nothing in data without entries: null, a scalar, an empty list or object. */
  lemma NoElementsNoErrors(doc: Json, ext: External, d: Json)
    requires Get(doc, ["data"]) == Some(d)
    requires Children(d) == []
    ensures FieldErrors(doc, ext, RelationshipRules[3]) == [] && FieldErrors(doc, ext, RelationshipRules[4]) == []
  {
    EntriesPass(doc, ext, d);
  }

  /** `data: null` is accepted: it empties a to-one relationship. */
  lemma NullDataAccepted(doc: Json, ext: External)
    requires Get(doc, ["data"]) == Some(JNull)
    ensures RelationshipErrors(doc, ext) == []
  {
    AcceptedIffEveryKey(doc, ext);
    assert FieldErrors(doc, ext, RelationshipRules[0]) == [] by {
      DataKeyPasses(doc, ext);
    }
    assert FieldErrors(doc, ext, RelationshipRules[1]) == [] && FieldErrors(doc, ext, RelationshipRules[2]) == [] by {
      GetAppend(doc, ["data"], "id");
      GetAppend(doc, ["data"], "type");
      SingularKeysPassWhenAbsent(doc, ext);
    }
    NoElementsNoErrors(doc, ext, JNull);
  }

  lemma DataPointer()
    ensures Pointer(Dotted(["data"])) == "/data"
  {
    assert Dotted(["data"]) == "data";
    ReplaceAbsent("data", '.', '/');
  }

  lemma DataDisplayName()
    ensures Replace(Dotted(["data"]), '_', ' ') == "data"
  {
    assert Dotted(["data"]) == "data";
    ReplaceAbsent("data", '_', ' ');
  }

  lemma PresentMessage(rules: seq<Rule>)
    ensures Message(Present, "data", rules) == "The data field must be present."
  {
  }

  /** An absent `data` fails `present`, its first rule. */
  lemma MissingDataFailsPresent(doc: Json, ext: External)
    requires !Has(doc, ["data"])
    ensures FirstFailure(doc, ext, [Present, IsArray, Nullable], Target(["data"], None, false), [Present, IsArray, Nullable]) == Some(Present)
  {
    var rules := [Present, IsArray, Nullable];
    assert !Holds(doc, ext, rules, Target(["data"], None, false), rules[0]);
  }

  lemma MissingDataKeyError(doc: Json, ext: External)
    requires !Has(doc, ["data"])
    ensures FieldErrors(doc, ext, RelationshipRules[0]) == [ValidationError("/data", "The data field must be present.")]
  {
    var rules := [Present, IsArray, Nullable];
    ExplicitKeyErrors(doc, ext, ["data"], rules);
    MissingDataFailsPresent(doc, ext);
    DataPointer();
    DataDisplayName();
    PresentMessage(rules);
  }

  lemma MissingDataOtherKeysPass(doc: Json, ext: External)
    requires !Has(doc, ["data"])
    ensures Validate(doc, ext, RelationshipRules[1..]) == []
  {
    GetAppend(doc, ["data"], "id");
    GetAppend(doc, ["data"], "type");
    SingularKeysPassWhenAbsent(doc, ext);
    ValidateEmpty(doc, ext, RelationshipRules[1..]);
  }

  /** A body without `data` reports exactly one error: "The data field must be present." at /data. */
  lemma MissingDataReported(doc: Json, ext: External)
    requires !Has(doc, ["data"])
    ensures RelationshipErrors(doc, ext) == [ValidationError("/data", "The data field must be present.")]
  {
    MissingDataKeyError(doc, ext);
    MissingDataOtherKeysPass(doc, ext);
  }

  /** `data.id`: required when `data.type` is given, and a string whenever it is given. */
  lemma IdKeyPasses(doc: Json, ext: External, t: Target)
    ensures var errs := AttributeErrors(doc, ext, [RequiredIfHas(["data", "type"]), IsString], t);
            && (Has(doc, ["data", "type"]) ==> (errs == [] <==> IdOk(t.value)))
            && (!Has(doc, ["data", "type"]) ==> (errs == [] <==> t.value.None? || t.value.value.JString?))
  {
    var rules := [RequiredIfHas(["data", "type"]), IsString];
    assert Sometimes !in rules && Nullable !in rules;
    if t.value.Some? && !t.value.value.JString? && Filled(t.value.value) {
      assert !Holds(doc, ext, rules, t, rules[1]);
    }
    if t.value.Some? && !t.value.value.JString? && !Has(doc, ["data", "type"]) {
      assert !Holds(doc, ext, rules, t, rules[1]);
    }
    if t.value.None? && Has(doc, ["data", "type"]) {
      assert !Holds(doc, ext, rules, t, rules[0]);
    }
    if t.value.Some? && !Filled(t.value.value) && Has(doc, ["data", "type"]) {
      assert !Holds(doc, ext, rules, t, rules[0]);
    }
  }

  /** `data.type`: required when `data.id` is given, and a registered type name whenever it is given and not blank. */
  lemma TypeKeyPasses(doc: Json, ext: External, t: Target)
    ensures var errs := AttributeErrors(doc, ext, [RequiredIfHas(["data", "id"]), In(TypeNames)], t);
            && (Has(doc, ["data", "id"]) ==> (errs == [] <==> TypeOk(t.value)))
            && (!Has(doc, ["data", "id"]) && t.value.None? ==> errs == [])
            && (!Has(doc, ["data", "id"]) && t.value.Some? ==>
                  (errs == [] <==> (t.value.value.JString? && IsBlank(t.value.value.s)) || InOptions(t.value.value, TypeNames)))
  {
    if Has(doc, ["data", "id"]) {
      TypeRequiredPasses(doc, ext, t);
    } else {
      TypeOptionalPasses(doc, ext, t);
    }
  }

  /** With `data.id` given, `data.type` passes exactly when it names a registered type. */
  lemma TypeRequiredPasses(doc: Json, ext: External, t: Target)
    requires Has(doc, ["data", "id"])
    ensures AttributeErrors(doc, ext, [RequiredIfHas(["data", "id"]), In(TypeNames)], t) == [] <==> TypeOk(t.value)
  {
    var rules := [RequiredIfHas(["data", "id"]), In(TypeNames)];
    assert Sometimes !in rules && Nullable !in rules;
    if t.value.None? {
      assert !Holds(doc, ext, rules, t, rules[0]);
    } else {
      var v := t.value.value;
      if TypeOk(t.value) {
        TypeNamesAreWords();
        WordsAreNotBlank(v.s);
        assert Holds(doc, ext, rules, t, rules[0]) && Holds(doc, ext, rules, t, rules[1]);
      } else if !Filled(v) {
        assert !Holds(doc, ext, rules, t, rules[0]);
      } else {
        if !v.JString? {
          OnlyStringsPrintAsWords(v);
          TypeNamesAreWords();
        }
        assert !Holds(doc, ext, rules, t, rules[1]);
      }
    }
  }

  /** With `data.id` absent, `data.type` passes when absent, and when given exactly if blank or a registered type. */
  lemma TypeOptionalPasses(doc: Json, ext: External, t: Target)
    requires !Has(doc, ["data", "id"])
    ensures var errs := AttributeErrors(doc, ext, [RequiredIfHas(["data", "id"]), In(TypeNames)], t);
            && (t.value.None? ==> errs == [])
            && (t.value.Some? ==> (errs == [] <==> (t.value.value.JString? && IsBlank(t.value.value.s)) || InOptions(t.value.value, TypeNames)))
  {
    var rules := [RequiredIfHas(["data", "id"]), In(TypeNames)];
    assert Sometimes !in rules && Nullable !in rules;
    if t.value.Some? && !(t.value.value.JString? && IsBlank(t.value.value.s)) && !InOptions(t.value.value, TypeNames) {
      assert !Holds(doc, ext, rules, t, rules[1]);
    }
  }

  /** The keys `data.id` and `data.type` of a single identifier are its members `id` and `type`. */
  lemma SingularMembers(doc: Json, ms: seq<(string, Json)>)
    requires Get(doc, ["data"]) == Some(JObject(ms))
    ensures Get(doc, ["data", "id"]) == Lookup(ms, "id") && Get(doc, ["data", "type"]) == Lookup(ms, "type")
  {
    GetAppend(doc, ["data"], "id");
    GetAppend(doc, ["data"], "type");
  }

  /** An entry that is an identifier is an array, so it is neither a string nor a type name. */
  lemma IdentifierIsArray(v: Json)
    requires IdentifierOk(v)
    ensures IsArrayLike(v) && !v.JString? && !InOptions(v, TypeNames)
  {
  }

  /** A single identifier's `id` member that is itself an identifier fails `data.id`'s `string`. */
  lemma IdMemberFails(doc: Json, ext: External, ms: seq<(string, Json)>)
    requires Get(doc, ["data"]) == Some(JObject(ms))
    requires Lookup(ms, "id").Some? && IdentifierOk(Lookup(ms, "id").value)
    ensures FieldErrors(doc, ext, RelationshipRules[1]) != []
  {
    SingularMembers(doc, ms);
    IdentifierIsArray(Lookup(ms, "id").value);
    ExplicitKeyErrors(doc, ext, ["data", "id"], RelationshipRules[1].rules);
    IdKeyPasses(doc, ext, Target(["data", "id"], Lookup(ms, "id"), false));
  }

  /** A single identifier's `type` member that is itself an identifier fails `data.type`'s `in`. */
  lemma TypeMemberFails(doc: Json, ext: External, ms: seq<(string, Json)>)
    requires Get(doc, ["data"]) == Some(JObject(ms))
    requires Lookup(ms, "type").Some? && IdentifierOk(Lookup(ms, "type").value)
    ensures FieldErrors(doc, ext, RelationshipRules[2]) != []
  {
    SingularMembers(doc, ms);
    IdentifierIsArray(Lookup(ms, "type").value);
    ExplicitKeyErrors(doc, ext, ["data", "type"], RelationshipRules[2].rules);
    TypeKeyPasses(doc, ext, Target(["data", "type"], Lookup(ms, "type"), false));
  }

  /**
   * An object as `data` is accepted exactly when it has neither an `id` nor a
   * `type` member and each of its members is a valid identifier: the wildcard
   * keys reach every member, and a scalar member has no `id`.
   */
  lemma SingularAcceptedIff(doc: Json, ext: External, ms: seq<(string, Json)>)
    requires Get(doc, ["data"]) == Some(JObject(ms))
    ensures RelationshipErrors(doc, ext) == [] <==>
            && Lookup(ms, "id").None? && Lookup(ms, "type").None?
            && forall j :: 0 <= j < |ms| ==> IdentifierOk(ms[j].1)
  {
    AcceptedIffEveryKey(doc, ext);
    assert FieldErrors(doc, ext, RelationshipRules[0]) == [] by {
      DataKeyPasses(doc, ext);
    }
    EntriesPass(doc, ext, JObject(ms));
    assert Children(JObject(ms)) == ms;
    if forall j :: 0 <= j < |ms| ==> IdentifierOk(ms[j].1) {
      SingularKeysWithIdentifierMembers(doc, ext, ms);
    }
  }

  /** When every member is an identifier, `data.id` and `data.type` pass exactly when neither member is there. */
  lemma SingularKeysWithIdentifierMembers(doc: Json, ext: External, ms: seq<(string, Json)>)
    requires Get(doc, ["data"]) == Some(JObject(ms))
    requires forall j :: 0 <= j < |ms| ==> IdentifierOk(ms[j].1)
    ensures (FieldErrors(doc, ext, RelationshipRules[1]) == [] && FieldErrors(doc, ext, RelationshipRules[2]) == []) <==>
            Lookup(ms, "id").None? && Lookup(ms, "type").None?
  {
    SingularMembers(doc, ms);
    if Lookup(ms, "id").None? && Lookup(ms, "type").None? {
      SingularKeysPassWhenAbsent(doc, ext);
    } else if Lookup(ms, "id").Some? {
      var j :| 0 <= j < |ms| && ms[j] == ("id", Lookup(ms, "id").value);
      IdMemberFails(doc, ext, ms);
    } else {
      var j :| 0 <= j < |ms| && ms[j] == ("type", Lookup(ms, "type").value);
      TypeMemberFails(doc, ext, ms);
    }
  }

  /** A single identifier with an `id` or a `type` is never accepted. */
  lemma SingleIdentifierRejected(doc: Json, ext: External, ms: seq<(string, Json)>)
    requires Get(doc, ["data"]) == Some(JObject(ms))
    requires Lookup(ms, "id").Some? || Lookup(ms, "type").Some?
    ensures RelationshipErrors(doc, ext) != []
  {
    SingularAcceptedIff(doc, ext, ms);
  }

  /** The single identifier `{"id": "1", "type": "users"}`. */
  const SingleUser: seq<(string, Json)> := [("id", JString("1")), ("type", JString("users"))]

  /** `{"data": {"id": "1", "type": "users"}}` is rejected as written. */
  lemma SingleUserRejected(doc: Json, ext: External)
    requires Get(doc, ["data"]) == Some(JObject(SingleUser))
    ensures RelationshipErrors(doc, ext) != []
  {
    assert Lookup(SingleUser, "id").Some?;
    SingleIdentifierRejected(doc, ext, SingleUser);
  }

  lemma FirstEntryNames()
    ensures "/data/" + NatToString(0) + "/id" == "/data/0/id"
    ensures "The data." + NatToString(0) + ".id field is required." == "The data.0.id field is required."
  {
    assert NatToString(0) == "0";
  }

  /** A scalar entry of a list is reported: `{"data": [5]}` gets "The data.0.id field is required." at /data/0/id. */
  lemma ScalarEntryReported(doc: Json, ext: External)
    requires Get(doc, ["data"]) == Some(JArray([JInt(5)]))
    ensures ValidationError("/data/0/id", "The data.0.id field is required.") in RelationshipErrors(doc, ext)
  {
    MissingElementIdReported(doc, ext, [JInt(5)], 0);
    FirstEntryNames();
  }

  // ---------------------------------------------------------------------
  // The request as meant for single identifiers
  // ---------------------------------------------------------------------

  /**
   * The evidently intended request: the collection keys `data.*.id` and
   * `data.*.type` apply to a list only, the single-resource keys to
   * everything else.
   */
  function IntendedRules(doc: Json): (fields: seq<FieldRules>)
    ensures Get(doc, ["data"]).Some? && Get(doc, ["data"]).value.JArray? ==> fields == RelationshipRules
    ensures !(Get(doc, ["data"]).Some? && Get(doc, ["data"]).value.JArray?) ==> fields == RelationshipRules[..3]
  {
    match Get(doc, ["data"])
    case Some(JArray(_)) => RelationshipRules
    case _ => RelationshipRules[..3]
  }

  function IntendedErrors(doc: Json, ext: External): seq<ValidationError> {
    Validate(doc, ext, IntendedRules(doc))
  }

  /** The intended request treats a list exactly as the request as written does. */
  lemma IntendedListUnchanged(doc: Json, ext: External, items: seq<Json>)
    requires Get(doc, ["data"]) == Some(JArray(items))
    ensures IntendedErrors(doc, ext) == RelationshipErrors(doc, ext)
    ensures IntendedErrors(doc, ext) == [] <==> forall i :: 0 <= i < |items| ==> IdentifierOk(items[i])
  {
    ListAcceptedIff(doc, ext, items);
  }

  /** The intended request passes exactly when each of the three single-resource keys passes. */
  lemma IntendedAcceptedIffThreeKeys(doc: Json, ext: External)
    requires !(Get(doc, ["data"]).Some? && Get(doc, ["data"]).value.JArray?)
    ensures IntendedErrors(doc, ext) == [] <==>
            && FieldErrors(doc, ext, RelationshipRules[0]) == []
            && FieldErrors(doc, ext, RelationshipRules[1]) == []
            && FieldErrors(doc, ext, RelationshipRules[2]) == []
  {
    var fields := RelationshipRules[..3];
    ValidateEmpty(doc, ext, fields);
    forall i | 0 <= i < 3
      ensures fields[i] == RelationshipRules[i]
    {
    }
    if FieldErrors(doc, ext, RelationshipRules[0]) == [] && FieldErrors(doc, ext, RelationshipRules[1]) == [] && FieldErrors(doc, ext, RelationshipRules[2]) == [] {
      forall i | 0 <= i < 3
        ensures FieldErrors(doc, ext, fields[i]) == []
      {
        assert i == 0 || i == 1 || i == 2;
      }
    }
  }

  /**
   * Under the intended request a single identifier is accepted exactly when
   * it has neither `id` nor `type`, or a non-blank string `id` together with
   * a registered `type`.
   */
  lemma IntendedSingularAcceptedIff(doc: Json, ext: External, ms: seq<(string, Json)>)
    requires Get(doc, ["data"]) == Some(JObject(ms))
    ensures IntendedErrors(doc, ext) == [] <==>
            (Lookup(ms, "id").None? && Lookup(ms, "type").None?) || (IdOk(Lookup(ms, "id")) && TypeOk(Lookup(ms, "type")))
  {
    IntendedAcceptedIffThreeKeys(doc, ext);
    assert FieldErrors(doc, ext, RelationshipRules[0]) == [] by {
      DataKeyPasses(doc, ext);
    }
    SingularKeysPass(doc, ext, ms);
  }

  /** `data.id` and `data.type` pass a single identifier exactly when it has neither, or a valid `id` and `type`. */
  lemma SingularKeysPass(doc: Json, ext: External, ms: seq<(string, Json)>)
    requires Get(doc, ["data"]) == Some(JObject(ms))
    ensures (FieldErrors(doc, ext, RelationshipRules[1]) == [] && FieldErrors(doc, ext, RelationshipRules[2]) == []) <==>
            (Lookup(ms, "id").None? && Lookup(ms, "type").None?) || (IdOk(Lookup(ms, "id")) && TypeOk(Lookup(ms, "type")))
  {
    SingularMembers(doc, ms);
    ExplicitKeyErrors(doc, ext, ["data", "id"], RelationshipRules[1].rules);
    ExplicitKeyErrors(doc, ext, ["data", "type"], RelationshipRules[2].rules);
    IdKeyPasses(doc, ext, Target(["data", "id"], Lookup(ms, "id"), false));
    TypeKeyPasses(doc, ext, Target(["data", "type"], Lookup(ms, "type"), false));
  }

  /** `{"data": {"id": "1", "type": "users"}}` is accepted by the intended request. */
  lemma SingleUserIntendedAccepted(doc: Json, ext: External)
    requires Get(doc, ["data"]) == Some(JObject(SingleUser))
    ensures IntendedErrors(doc, ext) == []
  {
    assert Lookup(SingleUser, "id") == Some(JString("1")) && Lookup(SingleUser, "type") == Some(JString("users"));
    assert !IsTrimmed("1"[0]);
    assert IdOk(Lookup(SingleUser, "id")) && TypeOk(Lookup(SingleUser, "type"));
    IntendedSingularAcceptedIff(doc, ext, SingleUser);
  }
}
