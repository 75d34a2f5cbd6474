/** The validator for a channel's metadata schema: a recursive walk that lists every violation with its dotted field. */
module Schema {
  import opened Common

  datatype Json =
    | Null
    | Bool(truth: bool)
    | Int(n: int)
    | Real(r: real)
    | Str(text: string)
    | Arr(items: seq<Json>)
    | Obj(members: seq<Member>)
  datatype Member = Member(key: string, value: Json)

  /** A dictionary keeps one value per key; the first entry stands for it. */
  predicate Has(v: Json, key: string) {
    v.Obj? && exists i :: 0 <= i < |v.members| && v.members[i].key == key
  }

  function Find(members: seq<Member>, key: string): Json
    requires exists i :: 0 <= i < |members| && members[i].key == key
  {
    if members[0].key == key then members[0].value else Find(members[1..], key)
  }

  function Get(v: Json, key: string): Json
    requires Has(v, key)
  {
    Find(v.members, key)
  }

  /** The supported keywords. `kind` is the "type" keyword, any string; `closed` is additionalProperties: false. */
  datatype Schema = Schema(
    kind: Option<string>,
    minLength: Option<int>,
    maxLength: Option<int>,
    minimum: Option<real>,
    maximum: Option<real>,
    pattern: Option<string>,
    allowed: Option<seq<Json>>,
    required: seq<string>,
    properties: seq<Property>,
    closed: bool)
  datatype Property = Property(key: string, schema: Schema)

  /** What the host language decides: regular-expression search (None: the pattern does not compile) and equality. */
  datatype Host = Host(search: (string, string) -> Option<bool>, equal: (Json, Json) -> bool)

  datatype Fault =
    | WrongType(name: string)
    | TooShort(least: int)
    | TooLong(most: int)
    | NoMatch(pattern: string)
    | BadPattern(pattern: string)
    | BelowMinimum(min: real)
    | AboveMaximum(max: real)
    | NotInEnum
    | Missing
    | Undeclared

  /** A fault at the end of a path of keys. */
  datatype Issue = Issue(path: seq<string>, fault: Fault)

  /** What callers see: the path as one dotted field. */
  datatype Violation = Violation(field: string, fault: Fault)

  // ---------- what each keyword asks ----------

  /** A Python bool is an int, and both are numbers; an unknown type name asks nothing. */
  predicate TypeOk(v: Json, kind: Option<string>) {
    match kind
    case None => true
    case Some(name) =>
      if name == "string" then v.Str?
      else if name == "number" then v.Int? || v.Real? || v.Bool?
      else if name == "integer" then v.Int? || v.Bool?
      else if name == "boolean" then v.Bool?
      else if name == "array" then v.Arr?
      else if name == "object" then v.Obj?
      else if name == "null" then v.Null?
      else true
  }

  /** The type names a value is an instance of. */
  function KindsOf(v: Json): set<string> {
    match v
    case Null => {"null"}
    case Bool(_) => {"boolean", "integer", "number"}
    case Int(_) => {"integer", "number"}
    case Real(_) => {"number"}
    case Str(_) => {"string"}
    case Arr(_) => {"array"}
    case Obj(_) => {"object"}
  }

  const KINDS: set<string> := {"null", "boolean", "integer", "number", "string", "array", "object"}

  /** A value fails its type exactly when that names one of the seven kinds and the value is not of it. */
  lemma TypeFailsIff(v: Json, kind: Option<string>)
    ensures !TypeOk(v, kind) <==> kind.Some? && kind.value in KINDS && kind.value !in KindsOf(v)
  {
  }

  predicate IsText(s: Schema) { s.kind == Some("string") }
  predicate IsNumeric(s: Schema) { s.kind == Some("number") || s.kind == Some("integer") }
  predicate IsObject(v: Json, s: Schema) { s.kind == Some("object") || (s.kind == None && v.Obj?) }

  function Number(v: Json): real
    requires v.Int? || v.Real? || v.Bool?
  {
    match v
    case Int(n) => n as real
    case Real(r) => r
    case Bool(b) => if b then 1.0 else 0.0
  }

  predicate Declared(properties: seq<Property>, key: string) {
    exists i :: 0 <= i < |properties| && properties[i].key == key
  }

  predicate OneOf(host: Host, v: Json, choices: seq<Json>) {
    exists i :: 0 <= i < |choices| && host.equal(v, choices[i])
  }

  // ---------- the declarative meaning ----------

  /** The value is what the schema describes. */
  ghost predicate Satisfies(host: Host, v: Json, s: Schema)
    decreases s
  {
    && TypeOk(v, s.kind)
    && (IsText(s) ==>
          && (s.minLength.Some? ==> |v.text| >= s.minLength.value)
          && (s.maxLength.Some? ==> |v.text| <= s.maxLength.value)
          && (s.pattern.Some? ==> host.search(s.pattern.value, v.text) == Some(true)))
    && (IsNumeric(s) ==>
          && (s.minimum.Some? ==> Number(v) >= s.minimum.value)
          && (s.maximum.Some? ==> Number(v) <= s.maximum.value))
    && (s.allowed.Some? ==> OneOf(host, v, s.allowed.value))
    && (IsObject(v, s) ==>
          && (forall key :: key in s.required ==> Has(v, key))
          && (forall i :: 0 <= i < |s.properties| && Has(v, s.properties[i].key) ==>
                Satisfies(host, Get(v, s.properties[i].key), s.properties[i].schema))
          && (s.closed ==> forall key :: Has(v, key) ==> Declared(s.properties, key)))
  }

  /** This fault is present at the end of this path. */
  ghost predicate Faulty(host: Host, v: Json, s: Schema, path: seq<string>, fault: Fault)
    decreases |path|, 0
  {
    if path == [] then FaultyHere(host, v, s, fault)
    else
      && TypeOk(v, s.kind) && IsObject(v, s)
      && (|| (path == [path[0]] && fault == Missing && path[0] in s.required && !Has(v, path[0]))
          || (path == [path[0]] && fault == Undeclared && s.closed && Has(v, path[0]) && !Declared(s.properties, path[0]))
          || (Has(v, path[0]) && FaultyProperty(host, Get(v, path[0]), s.properties, path[0], path[1..], fault)))
  }

  ghost predicate FaultyProperty(host: Host, v: Json, properties: seq<Property>, key: string, rest: seq<string>, fault: Fault)
    decreases |rest|, 1
  {
    exists p :: p in properties && p.key == key && Faulty(host, v, p.schema, rest, fault)
  }

  ghost predicate FaultyHere(host: Host, v: Json, s: Schema, fault: Fault) {
    if !TypeOk(v, s.kind) then fault == WrongType(s.kind.value)
    else match fault
      case TooShort(n) => IsText(s) && s.minLength == Some(n) && |v.text| < n
      case TooLong(n) => IsText(s) && s.maxLength == Some(n) && |v.text| > n
      case NoMatch(p) => IsText(s) && s.pattern == Some(p) && host.search(p, v.text) == Some(false)
      case BadPattern(p) => IsText(s) && s.pattern == Some(p) && host.search(p, v.text) == None
      case BelowMinimum(b) => IsNumeric(s) && s.minimum == Some(b) && Number(v) < b
      case AboveMaximum(b) => IsNumeric(s) && s.maximum == Some(b) && Number(v) > b
      case NotInEnum => s.allowed.Some? && !OneOf(host, v, s.allowed.value)
      case _ => false
  }

  // ---------- the issues, in the order the walk finds them ----------

  function When(c: bool, fault: Fault): seq<Issue> { if c then [Issue([], fault)] else [] }

  function AtLeast(length: nat, bound: Option<int>): seq<Issue> {
    match bound case Some(n) => When(length < n, TooShort(n)) case None => []
  }

  function AtMost(length: nat, bound: Option<int>): seq<Issue> {
    match bound case Some(n) => When(length > n, TooLong(n)) case None => []
  }

  function Matching(host: Host, text: string, pattern: Option<string>): seq<Issue> {
    match pattern
    case None => []
    case Some(p) =>
      match host.search(p, text)
      case Some(found) => When(!found, NoMatch(p))
      case None => [Issue([], BadPattern(p))]
  }

  function TextIssues(host: Host, text: string, s: Schema): seq<Issue> {
    AtLeast(|text|, s.minLength) + AtMost(|text|, s.maxLength) + Matching(host, text, s.pattern)
  }

  function NotBelow(x: real, bound: Option<real>): seq<Issue> {
    match bound case Some(b) => When(x < b, BelowMinimum(b)) case None => []
  }

  function NotAbove(x: real, bound: Option<real>): seq<Issue> {
    match bound case Some(b) => When(x > b, AboveMaximum(b)) case None => []
  }

  function NumberIssues(x: real, s: Schema): seq<Issue> {
    NotBelow(x, s.minimum) + NotAbove(x, s.maximum)
  }

  function EnumIssues(host: Host, v: Json, s: Schema): seq<Issue> {
    match s.allowed case Some(choices) => When(!OneOf(host, v, choices), NotInEnum) case None => []
  }

  function OwnIssues(host: Host, v: Json, s: Schema): seq<Issue>
    requires TypeOk(v, s.kind)
  {
    (if IsText(s) then TextIssues(host, v.text, s) else [])
    + (if IsNumeric(s) then NumberIssues(Number(v), s) else [])
    + EnumIssues(host, v, s)
  }

  function Under(key: string, issues: seq<Issue>): seq<Issue> {
    if issues == [] then [] else [Issue([key] + issues[0].path, issues[0].fault)] + Under(key, issues[1..])
  }

  function MissingIssues(v: Json, required: seq<string>): seq<Issue> {
    if required == [] then []
    else
      var last := |required| - 1;
      MissingIssues(v, required[..last]) + if Has(v, required[last]) then [] else [Issue([required[last]], Missing)]
  }

  function UndeclaredIssues(members: seq<Member>, properties: seq<Property>): seq<Issue> {
    if members == [] then []
    else
      var last := |members| - 1;
      UndeclaredIssues(members[..last], properties)
      + if Declared(properties, members[last].key) then [] else [Issue([members[last].key], Undeclared)]
  }

  function FieldIssues(host: Host, v: Json, s: Schema): seq<Issue>
    requires v.Obj?
    decreases s, 0
  {
    MissingIssues(v, s.required) + PropertyIssues(host, v, s.properties)
    + if s.closed then UndeclaredIssues(v.members, s.properties) else []
  }

  function PropertyIssues(host: Host, v: Json, properties: seq<Property>): seq<Issue>
    decreases properties, 2
  {
    if properties == [] then []
    else
      var last := |properties| - 1;
      PropertyIssues(host, v, properties[..last]) + EntryIssues(host, v, properties[last])
  }

  function EntryIssues(host: Host, v: Json, p: Property): seq<Issue>
    decreases p, 2
  {
    if Has(v, p.key) then Under(p.key, Issues(host, Get(v, p.key), p.schema)) else []
  }

  function Issues(host: Host, v: Json, s: Schema): seq<Issue>
    decreases s, 1
  {
    if !TypeOk(v, s.kind) then [Issue([], WrongType(s.kind.value))]
    else
      OwnIssues(host, v, s) + if IsObject(v, s) then FieldIssues(host, v, s) else []
  }

  // ---------- the walk itself ----------

  function Join(prefix: string, key: string): string {
    if prefix == "" then key else prefix + "." + key
  }

  function Field(prefix: string, path: seq<string>): string
    decreases |path|
  {
    if path == [] then prefix else Field(Join(prefix, path[0]), path[1..])
  }

  function Reported(prefix: string, issue: Issue): Violation {
    var field := Field(prefix, issue.path);
    Violation(if field == "" && issue.fault.WrongType? then "(root)" else field, issue.fault)
  }

  function Report(prefix: string, issues: seq<Issue>): seq<Violation> {
    seq(|issues|, i requires 0 <= i < |issues| => Reported(prefix, issues[i]))
  }

  lemma ReportJoin(prefix: string, a: seq<Issue>, b: seq<Issue>)
    ensures Report(prefix, a + b) == Report(prefix, a) + Report(prefix, b)
  {
  }

  lemma ReportFirst(prefix: string, first: Issue, rest: seq<Issue>)
    ensures Report(prefix, [first] + rest) == [Reported(prefix, first)] + Report(prefix, rest)
  {
  }

  /** Reporting a nested issue from its own prefix is reporting its longer path from the outer prefix. */
  lemma {:induction false} ReportUnder(prefix: string, key: string, issues: seq<Issue>)
    ensures Report(prefix, Under(key, issues)) == Report(Join(prefix, key), issues)
  {
    if issues != [] {
      ReportUnder(prefix, key, issues[1..]);
      assert ([key] + issues[0].path)[1..] == issues[0].path;
      ReportFirst(prefix, Issue([key] + issues[0].path, issues[0].fault), Under(key, issues[1..]));
      assert issues == [issues[0]] + issues[1..];
      ReportFirst(Join(prefix, key), issues[0], issues[1..]);
    }
  }

  lemma ReportWhen(prefix: string, c: bool, fault: Fault)
    requires !fault.WrongType?
    ensures Report(prefix, When(c, fault)) == if c then [Violation(prefix, fault)] else []
  {
    if c { ReportOne(prefix, Issue([], fault)); }
  }

  /** One more issue at a key, reported last. */
  lemma ReportLast(prefix: string, issues: seq<Issue>, key: string, fault: Fault)
    requires !fault.WrongType?
    ensures Report(prefix, issues + [Issue([key], fault)]) == Report(prefix, issues) + [Violation(Join(prefix, key), fault)]
  {
    var path := [key];
    assert path[1..] == [] && Field(Join(prefix, key), []) == Join(prefix, key);
    assert Field(prefix, path) == Join(prefix, key);
  }

  lemma ReportOne(prefix: string, issue: Issue)
    ensures Report(prefix, [issue]) == [Reported(prefix, issue)]
  {
  }

  method CheckText(host: Host, text: string, schema: Schema, prefix: string) returns (violations: seq<Violation>)
    ensures violations == Report(prefix, TextIssues(host, text, schema))
  {
    violations := [];
    if schema.minLength.Some? {
      ReportWhen(prefix, |text| < schema.minLength.value, TooShort(schema.minLength.value));
      if |text| < schema.minLength.value { violations := [Violation(prefix, TooShort(schema.minLength.value))]; }
    }
    ReportJoin(prefix, AtLeast(|text|, schema.minLength), AtMost(|text|, schema.maxLength));
    if schema.maxLength.Some? {
      ReportWhen(prefix, |text| > schema.maxLength.value, TooLong(schema.maxLength.value));
      if |text| > schema.maxLength.value { violations := violations + [Violation(prefix, TooLong(schema.maxLength.value))]; }
    }
    ghost var lengths := AtLeast(|text|, schema.minLength) + AtMost(|text|, schema.maxLength);
    assert violations == Report(prefix, lengths);
    ReportJoin(prefix, lengths, Matching(host, text, schema.pattern));
    if schema.pattern.Some? {
      var p := schema.pattern.value;
      var found := host.search(p, text);
      if found == None {
        ReportOne(prefix, Issue([], BadPattern(p)));
        violations := violations + [Violation(prefix, BadPattern(p))];
      } else {
        ReportWhen(prefix, !found.value, NoMatch(p));
        if !found.value { violations := violations + [Violation(prefix, NoMatch(p))]; }
      }
    }
  }

  method CheckNumber(x: real, schema: Schema, prefix: string) returns (violations: seq<Violation>)
    ensures violations == Report(prefix, NumberIssues(x, schema))
  {
    violations := [];
    if schema.minimum.Some? {
      ReportWhen(prefix, x < schema.minimum.value, BelowMinimum(schema.minimum.value));
      if x < schema.minimum.value { violations := violations + [Violation(prefix, BelowMinimum(schema.minimum.value))]; }
    }
    ReportJoin(prefix, NotBelow(x, schema.minimum), NotAbove(x, schema.maximum));
    if schema.maximum.Some? {
      ReportWhen(prefix, x > schema.maximum.value, AboveMaximum(schema.maximum.value));
      if x > schema.maximum.value { violations := violations + [Violation(prefix, AboveMaximum(schema.maximum.value))]; }
    }
  }

  method CheckRequired(value: Json, required: seq<string>, prefix: string) returns (violations: seq<Violation>)
    ensures violations == Report(prefix, MissingIssues(value, required))
  {
    violations := [];
    for i := 0 to |required|
      invariant violations == Report(prefix, MissingIssues(value, required[..i]))
    {
      var key := required[i];
      assert required[..i + 1][..i] == required[..i];
      if !Has(value, key) {
        ReportLast(prefix, MissingIssues(value, required[..i]), key, Missing);
        violations := violations + [Violation(Join(prefix, key), Missing)];
      }
    }
    assert required[..|required|] == required;
  }

  method CheckClosed(members: seq<Member>, properties: seq<Property>, prefix: string) returns (violations: seq<Violation>)
    ensures violations == Report(prefix, UndeclaredIssues(members, properties))
  {
    violations := [];
    for i := 0 to |members|
      invariant violations == Report(prefix, UndeclaredIssues(members[..i], properties))
    {
      var key := members[i].key;
      assert members[..i + 1][..i] == members[..i];
      if !Declared(properties, key) {
        ReportLast(prefix, UndeclaredIssues(members[..i], properties), key, Undeclared);
        violations := violations + [Violation(Join(prefix, key), Undeclared)];
      }
    }
    assert members[..|members|] == members;
  }

  method CheckProperties(host: Host, value: Json, properties: seq<Property>, prefix: string) returns (violations: seq<Violation>)
    ensures violations == Report(prefix, PropertyIssues(host, value, properties))
    decreases properties
  {
    violations := [];
    for i := 0 to |properties|
      invariant violations == Report(prefix, PropertyIssues(host, value, properties[..i]))
    {
      var p := properties[i];
      assert properties[..i + 1][..i] == properties[..i];
      if Has(value, p.key) {
        var nested := Validate(host, Get(value, p.key), p.schema, Join(prefix, p.key));
        ReportUnder(prefix, p.key, Issues(host, Get(value, p.key), p.schema));
        ReportJoin(prefix, PropertyIssues(host, value, properties[..i]), EntryIssues(host, value, p));
        violations := violations + nested;
      }
    }
    assert properties[..|properties|] == properties;
  }

  method CheckOwn(host: Host, value: Json, schema: Schema, prefix: string) returns (violations: seq<Violation>)
    requires TypeOk(value, schema.kind)
    ensures violations == Report(prefix, OwnIssues(host, value, schema))
  {
    violations := [];
    if IsText(schema) { violations := CheckText(host, value.text, schema, prefix); }
    ghost var texts := if IsText(schema) then TextIssues(host, value.text, schema) else [];
    if IsNumeric(schema) { violations := CheckNumber(Number(value), schema, prefix); }
    ghost var numbers := if IsNumeric(schema) then NumberIssues(Number(value), schema) else [];
    assert violations == Report(prefix, texts + numbers) by { assert texts + [] == texts && [] + numbers == numbers; }
    ReportJoin(prefix, texts + numbers, EnumIssues(host, value, schema));
    if schema.allowed.Some? {
      ReportWhen(prefix, !OneOf(host, value, schema.allowed.value), NotInEnum);
      if !OneOf(host, value, schema.allowed.value) { violations := violations + [Violation(prefix, NotInEnum)]; }
    }
  }

  /** The walk: a wrong type ends it; otherwise the value's own faults, then what its fields lack, hold and add. */
  method Validate(host: Host, value: Json, schema: Schema, prefix: string) returns (violations: seq<Violation>)
    ensures violations == Report(prefix, Issues(host, value, schema))
    decreases schema
  {
    if !TypeOk(value, schema.kind) {
      ReportOne(prefix, Issue([], WrongType(schema.kind.value)));
      return [Violation(if prefix == "" then "(root)" else prefix, WrongType(schema.kind.value))];
    }
    violations := CheckOwn(host, value, schema, prefix);
    ghost var own := OwnIssues(host, value, schema);
    if IsObject(value, schema) {
      var missing := CheckRequired(value, schema.required, prefix);
      var nested := CheckProperties(host, value, schema.properties, prefix);
      var extra := [];
      if schema.closed { extra := CheckClosed(value.members, schema.properties, prefix); }
      ghost var (a, b) := (MissingIssues(value, schema.required), PropertyIssues(host, value, schema.properties));
      ghost var c := if schema.closed then UndeclaredIssues(value.members, schema.properties) else [];
      ReportJoin(prefix, a, b);
      ReportJoin(prefix, a + b, c);
      ReportJoin(prefix, own, a + b + c);
      violations := violations + (missing + nested + extra);
    } else {
      assert own + [] == own;
    }
  }

  // ---------- main results ----------

  /** Every issue listed is a fault at its path, and every fault at a path is listed. */
  lemma {:induction false} IssuesAreFaults(host: Host, v: Json, s: Schema, path: seq<string>, fault: Fault)
    ensures Issue(path, fault) in Issues(host, v, s) <==> Faulty(host, v, s, path, fault)
    decreases |path|, 1, 0
  {
    if TypeOk(v, s.kind) {
      OwnFaults(host, v, s, path, fault);
      if IsObject(v, s) {
        MissingFaults(v, s.required, path, fault);
        PropertyFaults(host, v, s.properties, path, fault);
        UndeclaredFaults(v.members, s.properties, path, fault);
      }
    }
  }

  lemma OwnFaults(host: Host, v: Json, s: Schema, path: seq<string>, fault: Fault)
    requires TypeOk(v, s.kind)
    ensures Issue(path, fault) in OwnIssues(host, v, s) <==> path == [] && FaultyHere(host, v, s, fault)
  {
    if IsText(s) {
      TextFaults(host, v, s, path, fault);
    } else if IsNumeric(s) {
      NumberFaults(host, v, s, path, fault);
    }
    assert Issue(path, fault) in EnumIssues(host, v, s) <==> path == [] && fault == NotInEnum && FaultyHere(host, v, s, fault);
  }

  lemma TextFaults(host: Host, v: Json, s: Schema, path: seq<string>, fault: Fault)
    requires TypeOk(v, s.kind) && IsText(s)
    ensures Issue(path, fault) in TextIssues(host, v.text, s)
            <==> path == [] && fault != NotInEnum && FaultyHere(host, v, s, fault)
  {
    var (a, b, c) := (AtLeast(|v.text|, s.minLength), AtMost(|v.text|, s.maxLength), Matching(host, v.text, s.pattern));
    assert Issue(path, fault) in a <==> path == [] && fault.TooShort? && FaultyHere(host, v, s, fault);
    assert Issue(path, fault) in b <==> path == [] && fault.TooLong? && FaultyHere(host, v, s, fault);
    assert Issue(path, fault) in c <==> path == [] && (fault.NoMatch? || fault.BadPattern?) && FaultyHere(host, v, s, fault);
  }

  lemma NumberFaults(host: Host, v: Json, s: Schema, path: seq<string>, fault: Fault)
    requires TypeOk(v, s.kind) && IsNumeric(s)
    ensures Issue(path, fault) in NumberIssues(Number(v), s)
            <==> path == [] && fault != NotInEnum && FaultyHere(host, v, s, fault)
  {
    var (a, b) := (NotBelow(Number(v), s.minimum), NotAbove(Number(v), s.maximum));
    assert Issue(path, fault) in a <==> path == [] && fault.BelowMinimum? && FaultyHere(host, v, s, fault);
    assert Issue(path, fault) in b <==> path == [] && fault.AboveMaximum? && FaultyHere(host, v, s, fault);
  }

  lemma {:induction false} MissingFaults(v: Json, required: seq<string>, path: seq<string>, fault: Fault)
    ensures Issue(path, fault) in MissingIssues(v, required)
            <==> |path| == 1 && fault == Missing && path[0] in required && !Has(v, path[0])
  {
    if required != [] {
      var last := |required| - 1;
      MissingFaults(v, required[..last], path, fault);
      assert required == required[..last] + [required[last]];
      assert |path| == 1 ==> path == [path[0]];
    }
  }

  lemma {:induction false} UndeclaredFaults(members: seq<Member>, properties: seq<Property>, path: seq<string>, fault: Fault)
    ensures Issue(path, fault) in UndeclaredIssues(members, properties)
            <==> |path| == 1 && fault == Undeclared && Has(Obj(members), path[0]) && !Declared(properties, path[0])
  {
    if members != [] {
      UndeclaredFaults(members[..|members| - 1], properties, path, fault);
      assert |path| == 1 ==> path == [path[0]];
      if |path| == 1 { HasLast(members, path[0]); }
    }
  }

  lemma HasLast(members: seq<Member>, key: string)
    requires members != []
    ensures var last := |members| - 1;
            Has(Obj(members), key) <==> members[last].key == key || Has(Obj(members[..last]), key)
  {
    var last := |members| - 1;
    if i :| 0 <= i < last && members[i].key == key { assert members[..last][i].key == key; }
  }

  lemma {:induction false} PropertyFaults(host: Host, v: Json, properties: seq<Property>, path: seq<string>, fault: Fault)
    ensures Issue(path, fault) in PropertyIssues(host, v, properties)
            <==> path != [] && Has(v, path[0]) && FaultyProperty(host, Get(v, path[0]), properties, path[0], path[1..], fault)
    decreases |path|, 0, |properties|
  {
    if properties != [] {
      var last := |properties| - 1;
      var p := properties[last];
      PropertyFaults(host, v, properties[..last], path, fault);
      if Has(v, p.key) {
        UnderFaults(p.key, Issues(host, Get(v, p.key), p.schema), path, fault);
        if path != [] { IssuesAreFaults(host, Get(v, p.key), p.schema, path[1..], fault); }
      }
      assert properties == properties[..last] + [p];
    }
  }

  lemma {:induction false} UnderFaults(key: string, issues: seq<Issue>, path: seq<string>, fault: Fault)
    ensures Issue(path, fault) in Under(key, issues) <==> path != [] && path[0] == key && Issue(path[1..], fault) in issues
  {
    if issues != [] {
      UnderFaults(key, issues[1..], path, fault);
      var own := [key] + issues[0].path;
      assert own[1..] == issues[0].path;
      assert path == own <==> path != [] && path[0] == key && path[1..] == issues[0].path;
    }
  }

  /** The list is empty exactly for the values the schema describes. */
  lemma {:induction false} NoIssuesIffSatisfied(host: Host, v: Json, s: Schema)
    ensures Issues(host, v, s) == [] <==> Satisfies(host, v, s)
    decreases s, 1
  {
    if TypeOk(v, s.kind) && IsObject(v, s) {
      NoneMissing(v, s.required);
      NoneNested(host, v, s.properties);
      NoneUndeclared(v.members, s.properties);
    }
  }

  lemma {:induction false} NoneMissing(v: Json, required: seq<string>)
    ensures MissingIssues(v, required) == [] <==> forall key :: key in required ==> Has(v, key)
  {
    if required != [] {
      var last := |required| - 1;
      var (init, key) := (required[..last], required[last]);
      NoneMissing(v, init);
      assert required == init + [key];
      assert MissingIssues(v, required) == [] <==> MissingIssues(v, init) == [] && Has(v, key);
      assert forall k :: k in required <==> k in init || k == key;
    }
  }

  lemma {:induction false} NoneUndeclared(members: seq<Member>, properties: seq<Property>)
    ensures UndeclaredIssues(members, properties) == [] <==> forall key :: Has(Obj(members), key) ==> Declared(properties, key)
  {
    if members != [] {
      var last := |members| - 1;
      NoneUndeclared(members[..last], properties);
      forall key ensures Has(Obj(members), key) <==> members[last].key == key || Has(Obj(members[..last]), key) {
        HasLast(members, key);
      }
    }
  }

  lemma {:induction false} NoneNested(host: Host, v: Json, properties: seq<Property>)
    ensures PropertyIssues(host, v, properties) == []
            <==> forall i :: 0 <= i < |properties| && Has(v, properties[i].key) ==>
                   Satisfies(host, Get(v, properties[i].key), properties[i].schema)
    decreases properties, 2
  {
    if properties != [] {
      var last := |properties| - 1;
      var p := properties[last];
      NoneNested(host, v, properties[..last]);
      if Has(v, p.key) { NoIssuesIffSatisfied(host, Get(v, p.key), p.schema); }
      assert forall i :: 0 <= i < last ==> properties[i] == properties[..last][i];
    }
  }

  /** Main result: a post is refused exactly when its metadata is not what the channel's schema describes. */
  method CheckMetadata(host: Host, metadata: Json, schema: Schema) returns (ok: bool)
    ensures ok <==> Satisfies(host, metadata, schema)
  {
    var violations := Validate(host, metadata, schema, "metadata");
    NoIssuesIffSatisfied(host, metadata, schema);
    ok := violations == [];
  }

  function Dotted(path: seq<string>): string {
    if path == [] then "" else "." + path[0] + Dotted(path[1..])
  }

  /** Below a named prefix the field is the prefix and the whole path, key by key. */
  lemma {:induction false} FieldIsPrefixedPath(prefix: string, path: seq<string>)
    requires prefix != ""
    ensures Field(prefix, path) == prefix + Dotted(path)
    decreases |path|
  {
    if path != [] { FieldIsPrefixedPath(Join(prefix, path[0]), path[1..]); }
  }

  /** Without a prefix, an empty key leaves no trace: a wrong type below it is reported at the root. */
  lemma EmptyKeyReportsRoot(host: Host, s: Schema, text: Schema)
    requires s.kind == None && s.allowed == None && s.required == [] && s.properties == [Property("", text)] && !s.closed
    requires text.kind == Some("string")
    ensures Report("", Issues(host, Obj([Member("", Int(1))]), s)) == [Violation("(root)", WrongType("string"))]
  {
    var v := Obj([Member("", Int(1))]);
    assert v.members[0].key == "";
    var issue := Issue([], WrongType("string"));
    assert Issues(host, Int(1), text) == [issue];
    var own := [issue];
    assert own[1..] == [] && [""] + [] == [""];
    assert Under("", own) == [Issue([""], WrongType("string"))] + Under("", []);
    assert s.properties[..0] == [];
    assert PropertyIssues(host, v, s.properties) == [] + EntryIssues(host, v, s.properties[0]);
    assert [""][1..] == [];
    ReportOne("", Issue([""], WrongType("string")));
  }
}
