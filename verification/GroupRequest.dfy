/**
 * The request that updates a group. The resource object must be complete
 * (`data`, a string `id`, the type `groups` and an `attributes` object) while
 * each attribute is optional; an attribute that is given must be valid.
 */
module GroupRequest {
  import opened Wrappers
  import opened Payload
  import opened Rules
  import opened Registry

  /** The resource-object keys, followed by the attribute rules of a group update. */
  const UpdateGroupRules: seq<FieldRules> := [
    FieldRules(Field(["data"]), [Required, IsArray]),
    FieldRules(Field(["data", "id"]), [Required, IsString]),
    FieldRules(Field(["data", "type"]), [Required, In(["groups"])]),
    FieldRules(Field(["data", "attributes"]), [Required, IsArray]),
    AttributeRules("title", [Sometimes, Required, IsString, Unique("groups", "title")]),
    AttributeRules("project_id", [Sometimes, Required, IsInteger]),
    AttributeRules("user_id", [Sometimes, Required, IsInteger])
  ]

  /** The errors the request reports for a body. */
  function GroupUpdateErrors(doc: Json, ext: External): seq<ValidationError> {
    Validate(doc, ext, UpdateGroupRules)
  }

  /** The attribute rules are exactly the registry's update rules for groups. */
  lemma GroupRulesCoincideWithRegistry()
    ensures RulesFor("groups", Update) == Success(UpdateGroupRules[4..])
  {
  }

  // ---------------------------------------------------------------------
  // What the request accepts
  // ---------------------------------------------------------------------

  predicate FilledArray(c: Option<Json>) {
    c.Some? && IsArrayLike(c.value) && Filled(c.value)
  }

  predicate NonBlankString(c: Option<Json>) {
    c.Some? && c.value.JString? && !IsBlank(c.value.s)
  }

  /** An optional title: absent, or a non-blank string no other group has. */
  predicate TitleOk(ext: External, c: Option<Json>) {
    c.None? || (NonBlankString(c) && ext.isUnique("groups", "title", c.value))
  }

  /** An optional identifier: absent, or something the integer rule reads as an integer. */
  predicate OptionalInteger(c: Option<Json>) {
    c.None? || IsIntegerValue(c.value)
  }

  function Attribute(doc: Json, name: string): Option<Json> {
    Get(doc, ["data", "attributes", name])
  }

  /** The reference statement of what a group update must look like. */
  predicate GroupUpdateOk(doc: Json, ext: External) {
    && FilledArray(Get(doc, ["data"]))
    && NonBlankString(Get(doc, ["data", "id"]))
    && Get(doc, ["data", "type"]) == Some(JString("groups"))
    && FilledArray(Get(doc, ["data", "attributes"]))
    && TitleOk(ext, Attribute(doc, "title"))
    && OptionalInteger(Attribute(doc, "project_id"))
    && OptionalInteger(Attribute(doc, "user_id"))
  }

  /** Whatever the integer rule accepts is filled. */
  lemma IntegersAreFilled(v: Json)
    requires IsIntegerValue(v)
    ensures Filled(v)
  {
    if v.JString? {
      var s := v.s;
      var digits := Unsigned(s);
      assert IsDigit(digits[0]);
      assert |s| > 0;
      assert s[0] == '+' || s[0] == '-' || s[0] == digits[0];
      assert !IsTrimmed(s[0]);
    }
  }

  /** `sometimes|required|integer`: absent, or an integer. */
  lemma OptionalIntegerPasses(doc: Json, ext: External, t: Target)
    ensures AttributeErrors(doc, ext, [Sometimes, Required, IsInteger], t) == [] <==> OptionalInteger(t.value)
  {
    var rules := [Sometimes, Required, IsInteger];
    if t.value.Some? {
      var v := t.value.value;
      if IsIntegerValue(v) {
        IntegersAreFilled(v);
        assert Holds(doc, ext, rules, t, rules[1]) && Holds(doc, ext, rules, t, rules[2]);
      } else if Filled(v) {
        assert !Holds(doc, ext, rules, t, rules[2]);
      } else {
        assert !Holds(doc, ext, rules, t, rules[1]);
      }
    }
  }

  /** `sometimes|required|string|unique:groups,title`: absent, or a non-blank string not yet taken. */
  lemma TitlePasses(doc: Json, ext: External, t: Target)
    ensures AttributeErrors(doc, ext, [Sometimes, Required, IsString, Unique("groups", "title")], t) == [] <==> TitleOk(ext, t.value)
  {
    var rules := [Sometimes, Required, IsString, Unique("groups", "title")];
    if t.value.Some? {
      TitleRulesHold(doc, ext, t);
      assert (forall i :: 0 <= i < |rules| ==> Holds(doc, ext, rules, t, rules[i])) <==>
             Holds(doc, ext, rules, t, rules[1]) && Holds(doc, ext, rules, t, rules[2]) && Holds(doc, ext, rules, t, rules[3]);
    }
  }

  /** What each title rule checks of a title that is given. */
  lemma TitleRulesHold(doc: Json, ext: External, t: Target)
    requires t.value.Some?
    ensures var rules := [Sometimes, Required, IsString, Unique("groups", "title")];
            && Holds(doc, ext, rules, t, rules[0])
            && Holds(doc, ext, rules, t, rules[1]) == Filled(t.value.value)
            && (Filled(t.value.value) ==> Holds(doc, ext, rules, t, rules[2]) == t.value.value.JString?)
            && (Filled(t.value.value) ==> Holds(doc, ext, rules, t, rules[3]) == ext.isUnique("groups", "title", t.value.value))
  {
  }

  /** The request passes exactly when each of its seven keys passes. */
  lemma AcceptedIffEveryKey(doc: Json, ext: External)
    ensures GroupUpdateErrors(doc, ext) == [] <==>
            && FieldErrors(doc, ext, UpdateGroupRules[0]) == []
            && FieldErrors(doc, ext, UpdateGroupRules[1]) == []
            && FieldErrors(doc, ext, UpdateGroupRules[2]) == []
            && FieldErrors(doc, ext, UpdateGroupRules[3]) == []
            && FieldErrors(doc, ext, UpdateGroupRules[4]) == []
            && FieldErrors(doc, ext, UpdateGroupRules[5]) == []
            && FieldErrors(doc, ext, UpdateGroupRules[6]) == []
  {
    ValidateEmptyOfSeven(doc, ext, UpdateGroupRules);
  }

  lemma ResourceKeysPass(doc: Json, ext: External)
    ensures (FieldErrors(doc, ext, UpdateGroupRules[0]) == []) == FilledArray(Get(doc, ["data"]))
    ensures (FieldErrors(doc, ext, UpdateGroupRules[1]) == []) == NonBlankString(Get(doc, ["data", "id"]))
    ensures (FieldErrors(doc, ext, UpdateGroupRules[2]) == []) == (Get(doc, ["data", "type"]) == Some(JString("groups")))
    ensures (FieldErrors(doc, ext, UpdateGroupRules[3]) == []) == FilledArray(Get(doc, ["data", "attributes"]))
  {
    ArrayKeyPasses(doc, ext, ["data"]);
    IdKeyPasses(doc, ext);
    TypeKeyPasses(doc, ext);
    ArrayKeyPasses(doc, ext, ["data", "attributes"]);
  }

  lemma ArrayKeyPasses(doc: Json, ext: External, keys: seq<string>)
    ensures (FieldErrors(doc, ext, FieldRules(Field(keys), [Required, IsArray])) == []) == FilledArray(Get(doc, keys))
  {
    ExplicitKeyErrors(doc, ext, keys, [Required, IsArray]);
    RequiredArrayPasses(doc, ext, Target(keys, Get(doc, keys), false));
  }

  lemma IdKeyPasses(doc: Json, ext: External)
    ensures (FieldErrors(doc, ext, UpdateGroupRules[1]) == []) == NonBlankString(Get(doc, ["data", "id"]))
  {
    ExplicitKeyErrors(doc, ext, ["data", "id"], [Required, IsString]);
    RequiredStringPasses(doc, ext, Target(["data", "id"], Get(doc, ["data", "id"]), false));
  }

  lemma TypeKeyPasses(doc: Json, ext: External)
    ensures (FieldErrors(doc, ext, UpdateGroupRules[2]) == []) == (Get(doc, ["data", "type"]) == Some(JString("groups")))
  {
    ExplicitKeyErrors(doc, ext, ["data", "type"], [Required, In(["groups"])]);
    RequiredInPasses(doc, ext, Target(["data", "type"], Get(doc, ["data", "type"]), false), ["groups"]);
  }

  lemma AttributeKeysPass(doc: Json, ext: External)
    ensures (FieldErrors(doc, ext, UpdateGroupRules[4]) == []) == TitleOk(ext, Attribute(doc, "title"))
    ensures (FieldErrors(doc, ext, UpdateGroupRules[5]) == []) == OptionalInteger(Attribute(doc, "project_id"))
    ensures (FieldErrors(doc, ext, UpdateGroupRules[6]) == []) == OptionalInteger(Attribute(doc, "user_id"))
  {
    var title := ["data", "attributes", "title"];
    var project := ["data", "attributes", "project_id"];
    var user := ["data", "attributes", "user_id"];
    ExplicitKeyErrors(doc, ext, title, UpdateGroupRules[4].rules);
    TitlePasses(doc, ext, Target(title, Get(doc, title), false));
    ExplicitKeyErrors(doc, ext, project, UpdateGroupRules[5].rules);
    OptionalIntegerPasses(doc, ext, Target(project, Get(doc, project), false));
    ExplicitKeyErrors(doc, ext, user, UpdateGroupRules[6].rules);
    OptionalIntegerPasses(doc, ext, Target(user, Get(doc, user), false));
  }

  /** A group update is accepted exactly when it meets the reference statement. */
  lemma GroupUpdateAcceptedIff(doc: Json, ext: External)
    ensures GroupUpdateErrors(doc, ext) == [] <==> GroupUpdateOk(doc, ext)
  {
    AcceptedIffEveryKey(doc, ext);
    ResourceKeysPass(doc, ext);
    AttributeKeysPass(doc, ext);
  }

  /** A complete resource object whose attributes carry no title, project_id or user_id passes. */
  lemma UpdateWithoutAttributesPasses(doc: Json, ext: External)
    requires FilledArray(Get(doc, ["data"])) && NonBlankString(Get(doc, ["data", "id"]))
    requires Get(doc, ["data", "type"]) == Some(JString("groups")) && FilledArray(Get(doc, ["data", "attributes"]))
    requires Attribute(doc, "title").None? && Attribute(doc, "project_id").None? && Attribute(doc, "user_id").None?
    ensures GroupUpdateErrors(doc, ext) == []
  {
    GroupUpdateAcceptedIff(doc, ext);
  }

  // ---------------------------------------------------------------------
  // Errors reported
  // ---------------------------------------------------------------------

  lemma AttributesDotted()
    ensures Dotted(["data", "attributes"]) == "data.attributes"
  {
    assert ["data", "attributes"][1..] == ["attributes"];
    assert "data" + "." + "attributes" == "data.attributes";
  }

  lemma AttributesSlashed()
    ensures "/" + Join(["data", "attributes"], "/") == "/data/attributes"
  {
    assert ["data", "attributes"][1..] == ["attributes"];
    assert "/" + ("data" + "/" + "attributes") == "/data/attributes";
  }

  lemma AttributesNames()
    ensures Pointer(Dotted(["data", "attributes"])) == "/data/attributes"
    ensures Replace(Dotted(["data", "attributes"]), '_', ' ') == "data.attributes"
  {
    var keys := ["data", "attributes"];
    AttributesDotted();
    ReplaceAbsent("data.attributes", '_', ' ');
    assert forall x :: x in keys ==> '.' !in x;
    PointerOfDotted(keys);
    AttributesSlashed();
  }

  lemma ArrayMessage(rules: seq<Rule>)
    ensures Message(IsArray, "data.attributes", rules) == "The data.attributes must be an array."
  {
  }

  /** Attributes that are given but are not an object fail `array`, the first rule that fails. */
  lemma AttributesFailArray(doc: Json, ext: External)
    requires Get(doc, ["data", "attributes"]).Some?
    requires Filled(Get(doc, ["data", "attributes"]).value) && !IsArrayLike(Get(doc, ["data", "attributes"]).value)
    ensures var t := Target(["data", "attributes"], Get(doc, ["data", "attributes"]), false);
            FirstFailure(doc, ext, [Required, IsArray], t, [Required, IsArray]) == Some(IsArray)
  {
    var rules := [Required, IsArray];
    var t := Target(["data", "attributes"], Get(doc, ["data", "attributes"]), false);
    assert Holds(doc, ext, rules, t, rules[0]) && !Holds(doc, ext, rules, t, rules[1]);
    assert FirstFailure(doc, ext, rules, t, rules[1..]) == Some(IsArray);
  }

  lemma AttributesKeyError(doc: Json, ext: External)
    requires Get(doc, ["data", "attributes"]).Some?
    requires Filled(Get(doc, ["data", "attributes"]).value) && !IsArrayLike(Get(doc, ["data", "attributes"]).value)
    ensures FieldErrors(doc, ext, UpdateGroupRules[3]) == [ValidationError("/data/attributes", "The data.attributes must be an array.")]
  {
    var keys := ["data", "attributes"];
    var rules := [Required, IsArray];
    AttributesFailArray(doc, ext);
    ExplicitKeyErrors(doc, ext, keys, rules);
    AttributesNames();
    ArrayMessage(rules);
  }

  /** Attributes that are given but are not an object: "The data.attributes must be an array." at /data/attributes. */
  lemma AttributesNotArrayReported(doc: Json, ext: External)
    requires Get(doc, ["data", "attributes"]).Some?
    requires Filled(Get(doc, ["data", "attributes"]).value) && !IsArrayLike(Get(doc, ["data", "attributes"]).value)
    ensures ValidationError("/data/attributes", "The data.attributes must be an array.") in GroupUpdateErrors(doc, ext)
  {
    AttributesKeyError(doc, ext);
    ValidateContains(doc, ext, UpdateGroupRules, 3);
  }
}
