/**
 * The framework validator the form requests and the resource registry rely
 * on, for the rules they use. A rule list is checked against every concrete
 * attribute its key names; each attribute reports at most one error, for the
 * first rule that applies to it and fails, at a pointer derived from the
 * attribute's dotted key.
 */
module Rules {
  import opened Wrappers
  import opened Payload

  /** One rule of a pipe-separated rule string such as 'sometimes|required|string'. */
  datatype Rule =
    | Present
    | Required
    | RequiredIfHas(other: seq<string>)  // required when the request has `other`
    | Sometimes
    | Nullable
    | IsString
    | IsInteger
    | IsBoolean
    | IsArray
    | In(options: seq<string>)
    | Max(limit: nat)
    | Min(limit: nat)
    | Confirmed
    | Email
    | Unique(table: string, column: string)
    | Image
    | Mimes(extensions: seq<string>)
    | DateFormat(format: string)

  /** A rule key: an explicit dotted path, or `prefix.*.member`. */
  datatype FieldPath =
    | Field(keys: seq<string>)
    | EachElement(prefix: seq<string>, member: string)

  datatype FieldRules = FieldRules(path: FieldPath, rules: seq<Rule>)

  datatype ValidationError = ValidationError(pointer: string, detail: string)

  /**
   * Checks that consult the database or a library outside this model: the
   * uniqueness query, e-mail syntax, uploaded images, file extensions and
   * date formats.
   */
  datatype External = External(
    isEmail: Json -> bool,
    isUnique: (string, string, Json) -> bool,
    isImage: Json -> bool,
    hasExtension: (seq<string>, Json) -> bool,
    matchesFormat: (string, Json) -> bool)

  /** A concrete attribute: its key, its value (None when absent) and whether a wildcard produced it. */
  datatype Target = Target(keys: seq<string>, value: Option<Json>, expanded: bool)

  // ---------------------------------------------------------------------
  // Keys, pointers and display names
  // ---------------------------------------------------------------------

  function Join(parts: seq<string>, sep: string): string
    decreases |parts|
  {
    if parts == [] then ""
    else if |parts| == 1 then parts[0]
    else parts[0] + sep + Join(parts[1..], sep)
  }

  function Dotted(keys: seq<string>): string {
    Join(keys, ".")
  }

  lemma JoinThree(a: string, b: string, c: string, sep: string)
    ensures Join([a, b, c], sep) == a + sep + b + sep + c
  {
    assert [a, b, c][1..] == [b, c];
    assert [b, c][1..] == [c];
    assert Join([b, c], sep) == b + sep + c;
    assert Join([a, b, c], sep) == a + sep + (b + sep + c);
    assert a + sep + (b + sep + c) == a + sep + b + sep + c;
  }

  function Replace(s: string, from: char, to: char): (r: string)
    ensures |r| == |s|
    ensures forall i :: 0 <= i < |s| ==> r[i] == (if s[i] == from then to else s[i])
  {
    seq(|s|, i requires 0 <= i < |s| => if s[i] == from then to else s[i])
  }

  /** The error pointer of an attribute: its dotted key with every `.` turned into `/`, after a leading `/`. */
  function Pointer(key: string): (p: string)
    ensures |p| == |key| + 1 && p[0] == '/'
    ensures forall i :: 0 <= i < |key| ==> p[i + 1] == (if key[i] == '.' then '/' else key[i])
  {
    "/" + Replace(key, '.', '/')
  }

  lemma {:induction false} ReplaceConcat(a: string, b: string, from: char, to: char)
    ensures Replace(a + b, from, to) == Replace(a, from, to) + Replace(b, from, to)
  {
    var l, r := Replace(a + b, from, to), Replace(a, from, to) + Replace(b, from, to);
    assert |l| == |r|;
    forall i | 0 <= i < |l| ensures l[i] == r[i] {
      if i < |a| {
        assert (a + b)[i] == a[i];
      } else {
        assert (a + b)[i] == b[i - |a|];
      }
    }
  }

  lemma ReplaceAbsent(s: string, from: char, to: char)
    requires from !in s
    ensures Replace(s, from, to) == s
  {
  }

  /** Joining keys with `.` and then replacing `.` by `/` is joining them with `/`. */
  lemma {:induction false} ReplaceDotted(keys: seq<string>)
    requires forall k :: k in keys ==> '.' !in k
    ensures Replace(Dotted(keys), '.', '/') == Join(keys, "/")
    decreases |keys|
  {
    if |keys| == 0 {
    } else if |keys| == 1 {
      ReplaceAbsent(keys[0], '.', '/');
    } else {
      ReplaceDotted(keys[1..]);
      ReplaceConcat(keys[0] + ".", Join(keys[1..], "."), '.', '/');
      ReplaceConcat(keys[0], ".", '.', '/');
      ReplaceAbsent(keys[0], '.', '/');
      assert Replace(".", '.', '/') == "/";
    }
  }

  /** The pointer of a dotted key lists the same segments, `/`-separated. */
  lemma PointerOfDotted(keys: seq<string>)
    requires forall k :: k in keys ==> '.' !in k
    ensures Pointer(Dotted(keys)) == "/" + Join(keys, "/")
  {
    ReplaceDotted(keys);
  }

  /**
   * The name an error message uses for an attribute. A wildcard-produced key
   * is shown as it is; an explicit key is shown with `_` read as a space
   * (its snake-casing changes nothing, the keys used here being lower-case).
   */
  function DisplayName(t: Target): string {
    if t.expanded then Dotted(t.keys) else Replace(Dotted(t.keys), '_', ' ')
  }

  // ---------------------------------------------------------------------
  // What each rule accepts
  // ---------------------------------------------------------------------

  /** The characters PHP's trim removes. */
  predicate IsTrimmed(c: char) {
    c == ' ' || c == '\t' || c == '\n' || c == '\r' || c == 0 as char || c == 11 as char
  }

  predicate IsBlank(s: string) {
    forall i :: 0 <= i < |s| ==> IsTrimmed(s[i])
  }

  /** What `required` accepts: not null, not a blank string, not an empty array. */
  predicate Filled(v: Json) {
    match v
    case JNull => false
    case JString(s) => !IsBlank(s)
    case JArray(items) => |items| > 0
    case JObject(members) => |members| > 0
    case _ => true
  }

  /** A literal without its sign. */
  function Unsigned(s: string): string {
    if |s| > 0 && (s[0] == '+' || s[0] == '-') then s[1..] else s
  }

  /** A decimal integer literal as PHP's integer filter reads it: an optional sign, no leading zero. */
  predicate IsIntLiteral(s: string) {
    var digits := Unsigned(s);
    && |digits| > 0
    && (forall i :: 0 <= i < |digits| ==> IsDigit(digits[i]))
    && (digits[0] != '0' || |digits| == 1)
  }

  /** What `integer` accepts; `true` passes because the filter reads it as 1. */
  predicate IsIntegerValue(v: Json) {
    match v
    case JInt(_) => true
    case JBool(b) => b
    case JString(s) => IsIntLiteral(s)
    case _ => false
  }

  /** What `boolean` accepts: true, false, 0, 1, "0" and "1". */
  predicate IsBooleanValue(v: Json) {
    match v
    case JBool(_) => true
    case JInt(i) => i == 0 || i == 1
    case JString(s) => s == "0" || s == "1"
    case _ => false
  }

  /** PHP's string cast of a scalar. */
  function PhpString(v: Json): string {
    match v
    case JNull => ""
    case JBool(b) => if b then "1" else ""
    case JInt(i) => IntToString(i)
    case JString(s) => s
    case _ => ""
  }

  /** What `in:...` accepts: a scalar whose string form is one of the options. */
  predicate InOptions(v: Json, options: seq<string>) {
    !IsArrayLike(v) && PhpString(v) in options
  }

  /** The size `max` and `min` compare: a number under `integer`, an element count, or a length. */
  function Size(v: Json, rules: seq<Rule>): int {
    match v
    case JInt(i) => if IsInteger in rules then i else |IntToString(i)|
    case JString(s) => |s|
    case JArray(items) => |items|
    case JObject(members) => |members|
    case JBool(b) => if b then 1 else 0
    case JNull => 0
  }

  function ConfirmationKeys(keys: seq<string>): seq<string> {
    if keys == [] then ["_confirmation"]
    else keys[..|keys| - 1] + [keys[|keys| - 1] + "_confirmation"]
  }

  /** A rule that must be checked even when the attribute is absent. */
  predicate IsImplicit(doc: Json, r: Rule) {
    r.Present? || r.Required? || (r.RequiredIfHas? && Has(doc, r.other))
  }

  /** A rule that checks nothing by itself; `requiredIf` with a false condition is no rule at all. */
  predicate IsMarker(doc: Json, r: Rule) {
    r.Sometimes? || r.Nullable? || (r.RequiredIfHas? && !Has(doc, r.other))
  }

  /**
   * Whether a rule is checked against the attribute: an absent attribute or a
   * blank string is checked only by implicit rules, and a null one under
   * `nullable` likewise.
   */
  predicate Applies(doc: Json, rules: seq<Rule>, t: Target, r: Rule) {
    && !IsMarker(doc, r)
    && (match t.value
        case None => IsImplicit(doc, r)
        case Some(v) => v.JString? && IsBlank(v.s) ==> IsImplicit(doc, r))
    && (t.value == Some(JNull) && Nullable in rules ==> IsImplicit(doc, r))
  }

  predicate Passes(doc: Json, ext: External, rules: seq<Rule>, t: Target, r: Rule) {
    match t.value
    case None => !(r.Present? || r.Required? || r.RequiredIfHas?)
    case Some(v) =>
      match r
      case Present => true
      case Required => Filled(v)
      case RequiredIfHas(_) => Filled(v)
      case Sometimes => true
      case Nullable => true
      case IsString => v.JString?
      case IsInteger => IsIntegerValue(v)
      case IsBoolean => IsBooleanValue(v)
      case IsArray => IsArrayLike(v)
      case In(options) => InOptions(v, options)
      case Max(n) => Size(v, rules) <= n
      case Min(n) => Size(v, rules) >= n
      case Confirmed => Get(doc, ConfirmationKeys(t.keys)).GetOr(JNull) == v
      case Email => ext.isEmail(v)
      case Unique(table, column) => ext.isUnique(table, column, v)
      case Image => ext.isImage(v)
      case Mimes(exts) => ext.hasExtension(exts, v)
      case DateFormat(f) => ext.matchesFormat(f, v)
  }

  predicate Holds(doc: Json, ext: External, rules: seq<Rule>, t: Target, r: Rule) {
    Applies(doc, rules, t, r) ==> Passes(doc, ext, rules, t, r)
  }

  /** The first of `pending` that applies to the attribute and fails. */
  function FirstFailure(doc: Json, ext: External, rules: seq<Rule>, t: Target, pending: seq<Rule>): (r: Option<Rule>)
    ensures r.None? <==> forall i :: 0 <= i < |pending| ==> Holds(doc, ext, rules, t, pending[i])
    ensures r.Some? ==> exists k :: 0 <= k < |pending| && pending[k] == r.value
                          && !Holds(doc, ext, rules, t, r.value)
                          && forall j :: 0 <= j < k ==> Holds(doc, ext, rules, t, pending[j])
    decreases |pending|
  {
    if pending == [] then None
    else if !Holds(doc, ext, rules, t, pending[0]) then Some(pending[0])
    else
      FirstFailure(doc, ext, rules, t, pending[1..])
  }

  /** The message the framework's English language file gives for a failed rule. */
  function Message(r: Rule, name: string, rules: seq<Rule>): string {
    match r
    case Present => "The " + name + " field must be present."
    case Required => "The " + name + " field is required."
    case RequiredIfHas(_) => "The " + name + " field is required."
    case Sometimes => ""
    case Nullable => ""
    case IsString => "The " + name + " must be a string."
    case IsInteger => "The " + name + " must be an integer."
    case IsBoolean => "The " + name + " field must be true or false."
    case IsArray => "The " + name + " must be an array."
    case In(_) => "The selected " + name + " is invalid."
    case Max(n) =>
      if IsInteger in rules then "The " + name + " must not be greater than " + NatToString(n) + "."
      else if IsArray in rules then "The " + name + " must not have more than " + NatToString(n) + " items."
      else "The " + name + " must not be greater than " + NatToString(n) + " characters."
    case Min(n) =>
      if IsInteger in rules then "The " + name + " must be at least " + NatToString(n) + "."
      else if IsArray in rules then "The " + name + " must have at least " + NatToString(n) + " items."
      else "The " + name + " must be at least " + NatToString(n) + " characters."
    case Confirmed => "The " + name + " confirmation does not match."
    case Email => "The " + name + " must be a valid email address."
    case Unique(_, _) => "The " + name + " has already been taken."
    case Image => "The " + name + " must be an image."
    case Mimes(exts) => "The " + name + " must be a file of type: " + Join(exts, ", ") + "."
    case DateFormat(f) => "The " + name + " does not match the format " + f + "."
  }

  // ---------------------------------------------------------------------
  // Checking a rule list
  // ---------------------------------------------------------------------

  /**
   * The errors of one attribute: none when `sometimes` is given and the
   * attribute is absent, otherwise one for the first rule that applies and fails.
   */
  function AttributeErrors(doc: Json, ext: External, rules: seq<Rule>, t: Target): (errs: seq<ValidationError>)
    ensures |errs| <= 1
    ensures errs == [] <==> (Sometimes in rules && t.value.None?) || forall i :: 0 <= i < |rules| ==> Holds(doc, ext, rules, t, rules[i])
    ensures errs != [] ==> errs[0].pointer == Pointer(Dotted(t.keys))
  {
    if Sometimes in rules && t.value.None? then []
    else match FirstFailure(doc, ext, rules, t, rules)
      case None => []
      case Some(r) => [ValidationError(Pointer(Dotted(t.keys)), Message(r, DisplayName(t), rules))]
  }

  /**
   * The attributes a wildcard key reaches: for every entry of the prefix,
   * whatever its value, that entry's `member` (present or not). Before
   * expanding, the framework turns a scalar or null entry into an array
   * holding `member` as null, so such an entry is reached with its `member`
   * absent.
   */
  function ElementTargets(prefix: seq<string>, member: string, kids: seq<(string, Json)>): (ts: seq<Target>)
    ensures |ts| == |kids|
    ensures forall i :: 0 <= i < |kids| ==> ts[i].keys == prefix + [kids[i].0, member] && ts[i].expanded
    ensures forall i :: 0 <= i < |kids| ==> ts[i].value == Child(kids[i].1, member)
    decreases |kids|
  {
    if kids == [] then []
    else [ElementTarget(prefix, member, kids[0])] + ElementTargets(prefix, member, kids[1..])
  }

  /** The attribute `prefix.<key>.member` of one entry of the prefix. */
  function ElementTarget(prefix: seq<string>, member: string, kid: (string, Json)): (t: Target)
    ensures t.keys == prefix + [kid.0, member] && t.expanded
  {
    Target(prefix + [kid.0, member], Child(kid.1, member), true)
  }

  function Targets(doc: Json, path: FieldPath): seq<Target> {
    match path
    case Field(keys) => [Target(keys, Get(doc, keys), false)]
    case EachElement(prefix, member) =>
      match Get(doc, prefix)
      case None => []
      case Some(v) => ElementTargets(prefix, member, Children(v))
  }

  function TargetErrors(doc: Json, ext: External, rules: seq<Rule>, ts: seq<Target>): seq<ValidationError>
    decreases |ts|
  {
    if ts == [] then [] else AttributeErrors(doc, ext, rules, ts[0]) + TargetErrors(doc, ext, rules, ts[1..])
  }

  function FieldErrors(doc: Json, ext: External, f: FieldRules): seq<ValidationError> {
    TargetErrors(doc, ext, f.rules, Targets(doc, f.path))
  }

  /** Every violation of a rule list, in the order of its keys. */
  function Validate(doc: Json, ext: External, fields: seq<FieldRules>): seq<ValidationError>
    decreases |fields|
  {
    if fields == [] then [] else FieldErrors(doc, ext, fields[0]) + Validate(doc, ext, fields[1..])
  }

  // ---------------------------------------------------------------------
  // Facts about checking
  // ---------------------------------------------------------------------

  lemma {:induction false} TargetErrorsEmpty(doc: Json, ext: External, rules: seq<Rule>, ts: seq<Target>)
    ensures TargetErrors(doc, ext, rules, ts) == [] <==>
            forall i :: 0 <= i < |ts| ==> AttributeErrors(doc, ext, rules, ts[i]) == []
    decreases |ts|
  {
    if ts != [] {
      TargetErrorsEmpty(doc, ext, rules, ts[1..]);
      assert forall i :: 1 <= i < |ts| ==> ts[i] == ts[1..][i - 1];
    }
  }

  lemma {:induction false} TargetErrorsContain(doc: Json, ext: External, rules: seq<Rule>, ts: seq<Target>, i: nat)
    requires i < |ts|
    ensures forall e :: e in AttributeErrors(doc, ext, rules, ts[i]) ==> e in TargetErrors(doc, ext, rules, ts)
    decreases |ts|
  {
    if i > 0 {
      TargetErrorsContain(doc, ext, rules, ts[1..], i - 1);
    }
  }

  /** A rule list passes exactly when each of its keys passes. */
  lemma {:induction false} ValidateEmpty(doc: Json, ext: External, fields: seq<FieldRules>)
    ensures Validate(doc, ext, fields) == [] <==> forall i :: 0 <= i < |fields| ==> FieldErrors(doc, ext, fields[i]) == []
    decreases |fields|
  {
    if fields != [] {
      ValidateEmpty(doc, ext, fields[1..]);
      assert forall i :: 1 <= i < |fields| ==> fields[i] == fields[1..][i - 1];
    }
  }

  /** A list of five keys passes exactly when each of the five passes. */
  lemma ValidateEmptyOfFive(doc: Json, ext: External, fields: seq<FieldRules>)
    requires |fields| == 5
    ensures Validate(doc, ext, fields) == [] <==>
            && FieldErrors(doc, ext, fields[0]) == []
            && FieldErrors(doc, ext, fields[1]) == []
            && FieldErrors(doc, ext, fields[2]) == []
            && FieldErrors(doc, ext, fields[3]) == []
            && FieldErrors(doc, ext, fields[4]) == []
  {
    ValidateEmpty(doc, ext, fields);
    if FieldErrors(doc, ext, fields[0]) == [] && FieldErrors(doc, ext, fields[1]) == [] && FieldErrors(doc, ext, fields[2]) == [] && FieldErrors(doc, ext, fields[3]) == [] && FieldErrors(doc, ext, fields[4]) == [] {
      forall i | 0 <= i < 5
        ensures FieldErrors(doc, ext, fields[i]) == []
      {
        assert i == 0 || i == 1 || i == 2 || i == 3 || i == 4;
      }
    }
  }

  /** A list of seven keys passes exactly when each of the seven passes. */
  lemma ValidateEmptyOfSeven(doc: Json, ext: External, fields: seq<FieldRules>)
    requires |fields| == 7
    ensures Validate(doc, ext, fields) == [] <==>
            && FieldErrors(doc, ext, fields[0]) == []
            && FieldErrors(doc, ext, fields[1]) == []
            && FieldErrors(doc, ext, fields[2]) == []
            && FieldErrors(doc, ext, fields[3]) == []
            && FieldErrors(doc, ext, fields[4]) == []
            && FieldErrors(doc, ext, fields[5]) == []
            && FieldErrors(doc, ext, fields[6]) == []
  {
    ValidateEmpty(doc, ext, fields);
    if FieldErrors(doc, ext, fields[0]) == [] && FieldErrors(doc, ext, fields[1]) == [] && FieldErrors(doc, ext, fields[2]) == [] && FieldErrors(doc, ext, fields[3]) == [] && FieldErrors(doc, ext, fields[4]) == [] && FieldErrors(doc, ext, fields[5]) == [] && FieldErrors(doc, ext, fields[6]) == [] {
      forall i | 0 <= i < 7
        ensures FieldErrors(doc, ext, fields[i]) == []
      {
        assert i == 0 || i == 1 || i == 2 || i == 3 || i == 4 || i == 5 || i == 6;
      }
    }
  }

  /** Every error of one key is reported by the whole rule list. */
  lemma {:induction false} ValidateContains(doc: Json, ext: External, fields: seq<FieldRules>, i: nat)
    requires i < |fields|
    ensures forall e :: e in FieldErrors(doc, ext, fields[i]) ==> e in Validate(doc, ext, fields)
    decreases |fields|
  {
    if i > 0 {
      ValidateContains(doc, ext, fields[1..], i - 1);
    }
  }

  /** A lower-case word, such as a resource type name. */
  predicate IsWord(s: string) {
    |s| > 0 && 'a' <= s[0] <= 'z'
  }

  /** No integer, boolean, null or array prints as a word. */
  lemma OnlyStringsPrintAsWords(v: Json)
    requires !v.JString?
    ensures !IsWord(PhpString(v))
  {
    if v.JInt? {
      var p := PhpString(v);
      assert IsDigit(p[0]) || p[0] == '-';
    }
  }

  lemma WordsAreNotBlank(s: string)
    requires IsWord(s)
    ensures !IsBlank(s)
  {
    assert !IsTrimmed(s[0]);
  }

  /** `required|string` passes an attribute exactly when it is a string that is not blank. */
  lemma RequiredStringPasses(doc: Json, ext: External, t: Target)
    ensures AttributeErrors(doc, ext, [Required, IsString], t) == [] <==>
            t.value.Some? && t.value.value.JString? && !IsBlank(t.value.value.s)
  {
    var rules := [Required, IsString];
    assert Sometimes !in rules;
    if t.value.Some? && !t.value.value.JString? && Filled(t.value.value) {
      assert !Holds(doc, ext, rules, t, rules[1]);
    }
  }

  /** `required|in:<words>` passes an attribute exactly when it is a string among the words. */
  lemma RequiredInPasses(doc: Json, ext: External, t: Target, options: seq<string>)
    requires forall o :: o in options ==> IsWord(o)
    ensures AttributeErrors(doc, ext, [Required, In(options)], t) == [] <==>
            t.value.Some? && t.value.value.JString? && t.value.value.s in options
  {
    var rules := [Required, In(options)];
    assert Sometimes !in rules && Nullable !in rules;
    if t.value.None? {
      assert !Holds(doc, ext, rules, t, rules[0]);
    } else {
      var v := t.value.value;
      if v.JString? && v.s in options {
        WordsAreNotBlank(v.s);
        assert Holds(doc, ext, rules, t, rules[0]) && Holds(doc, ext, rules, t, rules[1]);
      } else if !Filled(v) {
        assert !Holds(doc, ext, rules, t, rules[0]);
      } else {
        if !v.JString? {
          OnlyStringsPrintAsWords(v);
        }
        assert !Holds(doc, ext, rules, t, rules[1]);
      }
    }
  }

  /** `required|array` passes an attribute exactly when it is a non-empty list or object. */
  lemma RequiredArrayPasses(doc: Json, ext: External, t: Target)
    ensures AttributeErrors(doc, ext, [Required, IsArray], t) == [] <==>
            t.value.Some? && IsArrayLike(t.value.value) && Filled(t.value.value)
  {
    var rules := [Required, IsArray];
    assert Sometimes !in rules;
    if t.value.Some? && !IsArrayLike(t.value.value) && Filled(t.value.value) {
      assert !Holds(doc, ext, rules, t, rules[1]);
    }
  }

  /** An explicit key is checked as the one attribute it names. */
  lemma ExplicitKeyErrors(doc: Json, ext: External, keys: seq<string>, rules: seq<Rule>)
    ensures FieldErrors(doc, ext, FieldRules(Field(keys), rules)) == AttributeErrors(doc, ext, rules, Target(keys, Get(doc, keys), false))
  {
    var t := Target(keys, Get(doc, keys), false);
    assert TargetErrors(doc, ext, rules, [t]) == AttributeErrors(doc, ext, rules, t) + TargetErrors(doc, ext, rules, []);
  }

  /** A wildcard key passes exactly when every entry of its prefix passes. */
  lemma {:induction false} ElementTargetsPass(doc: Json, ext: External, rules: seq<Rule>, prefix: seq<string>, member: string, kids: seq<(string, Json)>)
    ensures TargetErrors(doc, ext, rules, ElementTargets(prefix, member, kids)) == [] <==>
            forall i :: 0 <= i < |kids| ==> AttributeErrors(doc, ext, rules, ElementTarget(prefix, member, kids[i])) == []
    decreases |kids|
  {
    if kids != [] {
      ElementTargetsPass(doc, ext, rules, prefix, member, kids[1..]);
      var rest := ElementTargets(prefix, member, kids[1..]);
      var t := ElementTarget(prefix, member, kids[0]);
      assert ([t] + rest)[1..] == rest;
      assert TargetErrors(doc, ext, rules, [t] + rest) == AttributeErrors(doc, ext, rules, t) + TargetErrors(doc, ext, rules, rest);
      assert forall i :: 1 <= i < |kids| ==> kids[i] == kids[1..][i - 1];
    }
  }

  /** The errors of each entry reached by a wildcard key are among the key's errors. */
  lemma {:induction false} ElementTargetReported(doc: Json, ext: External, rules: seq<Rule>, prefix: seq<string>, member: string, kids: seq<(string, Json)>, i: nat)
    requires i < |kids|
    ensures forall e :: e in AttributeErrors(doc, ext, rules, ElementTarget(prefix, member, kids[i])) ==>
                          e in TargetErrors(doc, ext, rules, ElementTargets(prefix, member, kids))
    decreases |kids|
  {
    var rest := ElementTargets(prefix, member, kids[1..]);
    if i > 0 {
      ElementTargetReported(doc, ext, rules, prefix, member, kids[1..], i - 1);
    }
    var t := ElementTarget(prefix, member, kids[0]);
    assert ([t] + rest)[1..] == rest;
    assert TargetErrors(doc, ext, rules, [t] + rest) == AttributeErrors(doc, ext, rules, t) + TargetErrors(doc, ext, rules, rest);
  }

  /** A `sometimes` attribute that is absent is never reported. */
  lemma OptionalAbsentPasses(doc: Json, ext: External, keys: seq<string>, rules: seq<Rule>)
    requires Sometimes in rules && !Has(doc, keys)
    ensures FieldErrors(doc, ext, FieldRules(Field(keys), rules)) == []
  {
    var t := Target(keys, Get(doc, keys), false);
    assert AttributeErrors(doc, ext, rules, t) == [];
    assert TargetErrors(doc, ext, rules, [t]) == AttributeErrors(doc, ext, rules, t) + TargetErrors(doc, ext, rules, []);
  }

  /** A rule list of `sometimes` keys passes a document that carries none of them. */
  lemma OptionalFieldsAbsentPass(doc: Json, ext: External, fields: seq<FieldRules>)
    requires forall i :: 0 <= i < |fields| ==>
               fields[i].path.Field? && Sometimes in fields[i].rules && !Has(doc, fields[i].path.keys)
    ensures Validate(doc, ext, fields) == []
  {
    forall i | 0 <= i < |fields| ensures FieldErrors(doc, ext, fields[i]) == [] {
      OptionalAbsentPasses(doc, ext, fields[i].path.keys, fields[i].rules);
    }
    ValidateEmpty(doc, ext, fields);
  }

  /** An absent attribute whose first rule is `required` is reported as required, and only so. */
  lemma RequiredAbsentReported(doc: Json, ext: External, keys: seq<string>, rules: seq<Rule>)
    requires |rules| > 0 && rules[0] == Required && Sometimes !in rules && !Has(doc, keys)
    ensures FieldErrors(doc, ext, FieldRules(Field(keys), rules)) ==
            [ValidationError(Pointer(Dotted(keys)), "The " + Replace(Dotted(keys), '_', ' ') + " field is required.")]
  {
    var t := Target(keys, None, false);
    assert !Holds(doc, ext, rules, t, rules[0]);
    assert FirstFailure(doc, ext, rules, t, rules) == Some(Required);
    assert TargetErrors(doc, ext, rules, [t]) == AttributeErrors(doc, ext, rules, t) + TargetErrors(doc, ext, rules, []);
  }
}
