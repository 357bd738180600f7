/**
 * P4Dict: the dictionaries between OpenFlow names and the names of a P4
 * program, built from `// @TV` annotations in the program's source.
 *
 * An annotation line is followed by the definition it names:
 *   `// @TV table <id>`              then `table <name> {`
 *   `// @TV field <of-field>`        then `<p4-field> : <type> ;`
 *   `// @TV action <command> of=p4 …` (one or more lines) then `action <name>(…) {`
 * Every key is stored lower-cased, so lookups ignore case; a later
 * annotation with the same key replaces the earlier entry.
 */
module P4Dicts {
  import opened Wrappers
  import opened Text

  /** A line of the P4 program as the annotation and definition patterns classify it. */
  datatype Line =
    | TableAnnotation(tableId: nat)
    | TableDefinition(name: string)
    | FieldAnnotation(ofField: string)
    | FieldDefinition(p4Field: string)
    /** An action annotation: one command and its `of=p4` parameter pairs. */
    | ActionAnnotation(command: string, params: seq<(string, string)>)
    | ActionDefinition(name: string)
    /** A `// @TV` line of no known form. */
    | OtherAnnotation
    /** Anything else; outside an annotation it is skipped. */
    | Plain

  /** Lower-cases every element of a set of names. */
  function LowerSet(s: set<string>): (r: set<string>)
    ensures forall x :: x in s ==> ToLower(x) in r
    ensures forall y :: y in r ==> exists x :: x in s && y == ToLower(x)
  {
    set x | x in s :: ToLower(x)
  }

  /** The content of the eight HashMaps. */
  datatype Dict = Dict(
    p4TablesToIds: map<string, int>,
    tableIdsToP4Names: map<int, string>,
    p4FieldToOfField: map<string, string>,
    ofFieldToP4Field: map<string, string>,
    p4ActionToOfAction: map<string, set<string>>,
    ofActionToP4Action: map<set<string>, string>,
    p4ParamToOfParam: map<string, string>,
    ofParamToP4Param: map<string, string>)
  {
    function WithTable(name: string, id: int): Dict
    {
      this.(p4TablesToIds := p4TablesToIds[ToLower(name) := id],
            tableIdsToP4Names := tableIdsToP4Names[id := name])
    }

    function WithField(ofField: string, p4Field: string): Dict
    {
      this.(p4FieldToOfField := p4FieldToOfField[ToLower(p4Field) := ofField],
            ofFieldToP4Field := ofFieldToP4Field[ToLower(ofField) := p4Field])
    }

    function WithParam(param: (string, string)): Dict
    {
      this.(p4ParamToOfParam := p4ParamToOfParam[ToLower(param.1) := param.0],
            ofParamToP4Param := ofParamToP4Param[ToLower(param.0) := param.1])
    }

    /** The parameter pairs put in order, left to right. */
    function WithParams(params: seq<(string, string)>): Dict
      decreases |params|
    {
      if params == [] then this else WithParam(params[0]).WithParams(params[1..])
    }

    function WithAction(name: string, commands: set<string>): Dict
    {
      this.(p4ActionToOfAction := p4ActionToOfAction[ToLower(name) := commands],
            ofActionToP4Action := ofActionToP4Action[commands := name])
    }

    /** `p4TableToId`; None stands for null. */
    function P4TableToId(p4TableName: string): Option<int>
    {
      var k := ToLower(p4TableName);
      if k in p4TablesToIds then Some(p4TablesToIds[k]) else None
    }

    /** `tableIdToP4Name`: the table name in the case it was written. */
    function TableIdToP4Name(tableId: int): Option<string>
    {
      if tableId in tableIdsToP4Names then Some(tableIdsToP4Names[tableId]) else None
    }

    function P4FieldToOfField(p4Field: string): Option<string>
    {
      var k := ToLower(p4Field);
      if k in p4FieldToOfField then Some(p4FieldToOfField[k]) else None
    }

    function OfFieldToP4Field(ofField: string): Option<string>
    {
      var k := ToLower(ofField);
      if k in ofFieldToP4Field then Some(ofFieldToP4Field[k]) else None
    }

    /**
     * `p4ActionToOfAction`: a copy of the command set. Copying a missing
     * set dereferences null.
     */
    function P4ActionToOfAction(p4Action: string): Result<set<string>>
    {
      var k := ToLower(p4Action);
      if k in p4ActionToOfAction then Ok(p4ActionToOfAction[k]) else Err(NullPointer)
    }

    /** `ofActionToP4Action`: the query set is lower-cased before the lookup. */
    function OfActionToP4Action(ofAction: set<string>): Option<string>
    {
      var k := LowerSet(ofAction);
      if k in ofActionToP4Action then Some(ofActionToP4Action[k]) else None
    }

    function P4ParamToOfParam(p4Param: string): Option<string>
    {
      var k := ToLower(p4Param);
      if k in p4ParamToOfParam then Some(p4ParamToOfParam[k]) else None
    }

    function OfParamToP4Param(ofParam: string): Option<string>
    {
      var k := ToLower(ofParam);
      if k in ofParamToP4Param then Some(ofParamToP4Param[k]) else None
    }
  }

  function EmptyDict(): Dict
  {
    Dict(map[], map[], map[], map[], map[], map[], map[], map[])
  }

  const TABLE_EXPECTED: string := "table definition expected"
  const FIELD_EXPECTED: string := "field definition expected"
  const ACTION_EXPECTED: string := "action definition expected"
  const UNRECOGNIZED: string := "Unrecognized TV annotation format"

  /**
   * `parseP4File` over classified lines: the dictionaries as they stand when
   * the loop ends, and whether it ended normally. Reading past the last line
   * dereferences null; a missing definition or an unknown annotation is an
   * IllegalArgumentException. Entries put before a failure stay put.
   */
  function Parse(d: Dict, lines: seq<Line>): (Dict, Outcome)
    decreases |lines|, 1
  {
    if lines == [] then (d, Pass)
    else match lines[0]
      case TableAnnotation(id) =>
        if |lines| == 1 then (d, Fail(NullPointer))
        else if !lines[1].TableDefinition? then (d, Fail(IllegalArgument(TABLE_EXPECTED)))
        else Parse(d.WithTable(lines[1].name, id), lines[2..])
      case FieldAnnotation(ofField) =>
        if |lines| == 1 then (d, Fail(NullPointer))
        else if !lines[1].FieldDefinition? then (d, Fail(IllegalArgument(FIELD_EXPECTED)))
        else Parse(d.WithField(ofField, lines[1].p4Field), lines[2..])
      case ActionAnnotation(_, _) => ActionBlock(d, {}, lines)
      case OtherAnnotation => (d, Fail(IllegalArgument(UNRECOGNIZED)))
      case _ => Parse(d, lines[1..])
  }

  /**
   * The do-while over consecutive action annotations: each adds its
   * lower-cased command to `commands` and puts its parameter pairs; the
   * first other line must define the action.
   */
  function ActionBlock(d: Dict, commands: set<string>, lines: seq<Line>): (Dict, Outcome)
    requires |lines| > 0 && lines[0].ActionAnnotation?
    decreases |lines|, 0
  {
    var d' := d.WithParams(lines[0].params);
    var commands' := commands + {ToLower(lines[0].command)};
    if |lines| == 1 then (d', Fail(NullPointer))
    else if lines[1].ActionAnnotation? then ActionBlock(d', commands', lines[1..])
    else if lines[1].ActionDefinition? then Parse(d'.WithAction(lines[1].name, commands'), lines[2..])
    else (d', Fail(IllegalArgument(ACTION_EXPECTED)))
  }

  /** The commands a run of action annotations collects. */
  function CommandsOf(annotations: seq<Line>): set<string>
    requires forall l :: l in annotations ==> l.ActionAnnotation?
  {
    set l | l in annotations :: ToLower(l.command)
  }

  /**
   * The annotation grammar, independent of the dictionaries: every
   * table or field annotation is followed by its definition, every run of
   * action annotations by an action definition, and no other `// @TV` line
   * occurs outside those.
   */
  predicate WellFormed(lines: seq<Line>)
    decreases |lines|
  {
    if lines == [] then true
    else match lines[0]
      case TableAnnotation(_) => |lines| >= 2 && lines[1].TableDefinition? && WellFormed(lines[2..])
      case FieldAnnotation(_) => |lines| >= 2 && lines[1].FieldDefinition? && WellFormed(lines[2..])
      case ActionAnnotation(_, _) =>
        var k := FirstNonAction(lines);
        k < |lines| && lines[k].ActionDefinition? && WellFormed(lines[k + 1..])
      case OtherAnnotation => false
      case _ => WellFormed(lines[1..])
  }

  /** The index of the first line that is not an action annotation, or |lines|. */
  function FirstNonAction(lines: seq<Line>): (k: nat)
    ensures k <= |lines|
    ensures forall i :: 0 <= i < k ==> lines[i].ActionAnnotation?
    ensures k < |lines| ==> !lines[k].ActionAnnotation?
  {
    if lines == [] || !lines[0].ActionAnnotation? then 0 else 1 + FirstNonAction(lines[1..])
  }

  /** Parsing ends normally exactly on the lines the annotation grammar accepts. */
  lemma {:induction false} ParsePassesIffWellFormed(d: Dict, lines: seq<Line>)
    ensures Parse(d, lines).1 == Pass <==> WellFormed(lines)
    decreases |lines|, 1
  {
    if lines != [] {
      match lines[0]
      case TableAnnotation(id) =>
        if |lines| >= 2 && lines[1].TableDefinition? {
          ParsePassesIffWellFormed(d.WithTable(lines[1].name, id), lines[2..]);
        }
      case FieldAnnotation(ofField) =>
        if |lines| >= 2 && lines[1].FieldDefinition? {
          ParsePassesIffWellFormed(d.WithField(ofField, lines[1].p4Field), lines[2..]);
        }
      case ActionAnnotation(_, _) =>
        ActionBlockPassesIffWellFormed(d, {}, lines);
      case OtherAnnotation =>
      case TableDefinition(_) => ParsePassesIffWellFormed(d, lines[1..]);
      case FieldDefinition(_) => ParsePassesIffWellFormed(d, lines[1..]);
      case ActionDefinition(_) => ParsePassesIffWellFormed(d, lines[1..]);
      case Plain => ParsePassesIffWellFormed(d, lines[1..]);
    }
  }

  lemma {:induction false} ActionBlockPassesIffWellFormed(d: Dict, commands: set<string>, lines: seq<Line>)
    requires |lines| > 0 && lines[0].ActionAnnotation?
    ensures var k := FirstNonAction(lines);
            ActionBlock(d, commands, lines).1 == Pass <==>
              k < |lines| && lines[k].ActionDefinition? && WellFormed(lines[k + 1..])
    decreases |lines|, 0
  {
    var d' := d.WithParams(lines[0].params);
    var commands' := commands + {ToLower(lines[0].command)};
    var k := FirstNonAction(lines);
    if |lines| >= 2 {
      if lines[1].ActionAnnotation? {
        ActionBlockPassesIffWellFormed(d', commands', lines[1..]);
        assert FirstNonAction(lines[1..]) + 1 == k;
        if k < |lines| {
          assert lines[1..][k - 1] == lines[k];
          assert lines[1..][k - 1 + 1..] == lines[k + 1..];
        }
      } else {
        assert k == 1;
        if lines[1].ActionDefinition? {
          ParsePassesIffWellFormed(d'.WithAction(lines[1].name, commands'), lines[2..]);
        }
      }
    }
  }

  /**
   * The programs whose parse runs off the end: a table or field annotation
   * on the last line, or a run of action annotations that reaches it, after
   * an otherwise well-formed prefix.
   */
  predicate Truncated(lines: seq<Line>)
    decreases |lines|
  {
    lines != [] &&
    match lines[0]
      case TableAnnotation(_) => |lines| == 1 || (lines[1].TableDefinition? && Truncated(lines[2..]))
      case FieldAnnotation(_) => |lines| == 1 || (lines[1].FieldDefinition? && Truncated(lines[2..]))
      case ActionAnnotation(_, _) =>
        var k := FirstNonAction(lines);
        k == |lines| || (lines[k].ActionDefinition? && Truncated(lines[k + 1..]))
      case OtherAnnotation => false
      case _ => Truncated(lines[1..])
  }

  /** The IllegalArgumentException messages the parse raises. */
  const PARSE_MESSAGES: set<string> := {TABLE_EXPECTED, FIELD_EXPECTED, ACTION_EXPECTED, UNRECOGNIZED}

  /**
   * A failed parse is a NullPointerException exactly when the program is
   * truncated; every other failure is an IllegalArgumentException with one
   * of the four messages.
   */
  lemma {:induction false} ParseFailureKinds(d: Dict, lines: seq<Line>)
    ensures Parse(d, lines).1 == Fail(NullPointer) <==> Truncated(lines)
    ensures Parse(d, lines).1.Fail? && Parse(d, lines).1 != Fail(NullPointer) ==>
              Parse(d, lines).1.error.IllegalArgument? && Parse(d, lines).1.error.msg in PARSE_MESSAGES
    decreases |lines|, 1
  {
    if lines != [] {
      match lines[0]
      case TableAnnotation(id) =>
        if |lines| >= 2 && lines[1].TableDefinition? {
          ParseFailureKinds(d.WithTable(lines[1].name, id), lines[2..]);
        }
      case FieldAnnotation(ofField) =>
        if |lines| >= 2 && lines[1].FieldDefinition? {
          ParseFailureKinds(d.WithField(ofField, lines[1].p4Field), lines[2..]);
        }
      case ActionAnnotation(_, _) =>
        ActionBlockFailureKinds(d, {}, lines);
      case OtherAnnotation =>
      case TableDefinition(_) => ParseFailureKinds(d, lines[1..]);
      case FieldDefinition(_) => ParseFailureKinds(d, lines[1..]);
      case ActionDefinition(_) => ParseFailureKinds(d, lines[1..]);
      case Plain => ParseFailureKinds(d, lines[1..]);
    }
  }

  lemma {:induction false} ActionBlockFailureKinds(d: Dict, commands: set<string>, lines: seq<Line>)
    requires |lines| > 0 && lines[0].ActionAnnotation?
    ensures var k := FirstNonAction(lines);
            ActionBlock(d, commands, lines).1 == Fail(NullPointer) <==>
              k == |lines| || (lines[k].ActionDefinition? && Truncated(lines[k + 1..]))
    ensures ActionBlock(d, commands, lines).1.Fail? && ActionBlock(d, commands, lines).1 != Fail(NullPointer) ==>
              ActionBlock(d, commands, lines).1.error.IllegalArgument? &&
              ActionBlock(d, commands, lines).1.error.msg in PARSE_MESSAGES
    decreases |lines|, 0
  {
    var d' := d.WithParams(lines[0].params);
    var commands' := commands + {ToLower(lines[0].command)};
    var k := FirstNonAction(lines);
    if |lines| >= 2 {
      if lines[1].ActionAnnotation? {
        ActionBlockFailureKinds(d', commands', lines[1..]);
        assert FirstNonAction(lines[1..]) + 1 == k;
        if k < |lines| {
          assert lines[1..][k - 1] == lines[k];
          assert lines[1..][k - 1 + 1..] == lines[k + 1..];
        }
      } else {
        assert k == 1;
        if lines[1].ActionDefinition? {
          ParseFailureKinds(d'.WithAction(lines[1].name, commands'), lines[2..]);
        }
      }
    }
  }

  /**
   * A parse that ends normally consumes whole annotations, so parsing a
   * program in two pieces is parsing it in one: the second piece starts
   * from the dictionaries the first left, and its entries overwrite theirs.
   */
  lemma {:induction false} ParseAppend(d: Dict, a: seq<Line>, b: seq<Line>)
    requires Parse(d, a).1 == Pass
    ensures Parse(d, a + b) == Parse(Parse(d, a).0, b)
    decreases |a|, 1
  {
    if a == [] {
      assert a + b == b;
    } else {
      assert (a + b)[0] == a[0];
      match a[0]
      case TableAnnotation(id) =>
        assert (a + b)[1] == a[1] && (a + b)[2..] == a[2..] + b;
        ParseAppend(d.WithTable(a[1].name, id), a[2..], b);
      case FieldAnnotation(ofField) =>
        assert (a + b)[1] == a[1] && (a + b)[2..] == a[2..] + b;
        ParseAppend(d.WithField(ofField, a[1].p4Field), a[2..], b);
      case ActionAnnotation(_, _) =>
        ActionBlockAppend(d, {}, a, b);
      case OtherAnnotation =>
      case TableDefinition(_) =>
        assert (a + b)[1..] == a[1..] + b;
        ParseAppend(d, a[1..], b);
      case FieldDefinition(_) =>
        assert (a + b)[1..] == a[1..] + b;
        ParseAppend(d, a[1..], b);
      case ActionDefinition(_) =>
        assert (a + b)[1..] == a[1..] + b;
        ParseAppend(d, a[1..], b);
      case Plain =>
        assert (a + b)[1..] == a[1..] + b;
        ParseAppend(d, a[1..], b);
    }
  }

  lemma {:induction false} ActionBlockAppend(d: Dict, commands: set<string>, a: seq<Line>, b: seq<Line>)
    requires |a| > 0 && a[0].ActionAnnotation?
    requires ActionBlock(d, commands, a).1 == Pass
    ensures ActionBlock(d, commands, a + b) == Parse(ActionBlock(d, commands, a).0, b)
    decreases |a|, 0
  {
    var d' := d.WithParams(a[0].params);
    var commands' := commands + {ToLower(a[0].command)};
    assert (a + b)[0] == a[0] && (a + b)[1] == a[1];
    if a[1].ActionAnnotation? {
      assert (a + b)[1..] == a[1..] + b;
      ActionBlockAppend(d', commands', a[1..], b);
    } else {
      assert (a + b)[2..] == a[2..] + b;
      ParseAppend(d'.WithAction(a[1].name, commands'), a[2..], b);
    }
  }

  /** The three groups of maps, each filled by one kind of annotation. */
  datatype Part = TableMaps | FieldMaps | ActionMaps

  function Project(d: Dict, part: Part): (map<string, int>, map<int, string>, map<string, string>, map<string, string>,
                                           map<string, set<string>>, map<set<string>, string>)
  {
    match part
    case TableMaps => (d.p4TablesToIds, d.tableIdsToP4Names, map[], map[], map[], map[])
    case FieldMaps => (map[], map[], d.p4FieldToOfField, d.ofFieldToP4Field, map[], map[])
    case ActionMaps => (map[], map[], d.p4ParamToOfParam, d.ofParamToP4Param, d.p4ActionToOfAction, d.ofActionToP4Action)
  }

  /** The kind of annotation that writes a group of maps. */
  predicate Writes(l: Line, part: Part)
  {
    match part
    case TableMaps => l.TableAnnotation?
    case FieldMaps => l.FieldAnnotation?
    case ActionMaps => l.ActionAnnotation?
  }

  /**
   * Each kind of annotation fills only its own maps: lines without table
   * annotations leave the table maps as they were, and so on.
   */
  lemma {:induction false} ParseFrame(d: Dict, lines: seq<Line>, part: Part)
    requires forall l :: l in lines ==> !Writes(l, part)
    ensures Project(Parse(d, lines).0, part) == Project(d, part)
    decreases |lines|, 1
  {
    if lines != [] {
      assert !Writes(lines[0], part) by {
        assert lines[0] in lines;
      }
      match lines[0]
      case ActionAnnotation(_, _) =>
        ActionBlockFrame(d, {}, lines, part);
      case OtherAnnotation =>
      case TableAnnotation(_) | FieldAnnotation(_) =>
        if |lines| >= 2 && (lines[1].TableDefinition? || lines[1].FieldDefinition?) {
          AnnotationFrame(d, lines, part);
        }
      case _ =>
        assert forall l :: l in lines[1..] ==> l in lines;
        ParseFrame(d, lines[1..], part);
    }
  }

  lemma {:induction false} AnnotationFrame(d: Dict, lines: seq<Line>, part: Part)
    requires |lines| >= 2 && (lines[0].TableAnnotation? || lines[0].FieldAnnotation?)
    requires lines[1].TableDefinition? || lines[1].FieldDefinition?
    requires forall l :: l in lines ==> !Writes(l, part)
    ensures Project(Parse(d, lines).0, part) == Project(d, part)
    decreases |lines|, 0
  {
    assert !Writes(lines[0], part) by {
      assert lines[0] in lines;
    }
    assert forall l :: l in lines[2..] ==> l in lines;
    if lines[0].TableAnnotation? && lines[1].TableDefinition? {
      var d' := d.WithTable(lines[1].name, lines[0].tableId);
      assert Parse(d, lines) == Parse(d', lines[2..]);
      ParseFrame(d', lines[2..], part);
    } else if lines[0].FieldAnnotation? && lines[1].FieldDefinition? {
      var d' := d.WithField(lines[0].ofField, lines[1].p4Field);
      assert Parse(d, lines) == Parse(d', lines[2..]);
      ParseFrame(d', lines[2..], part);
    }
  }

  /** Putting parameter pairs changes only the two parameter maps. */
  lemma {:induction false} WithParamsFrame(d: Dict, params: seq<(string, string)>)
    ensures var r := d.WithParams(params);
            r == d.(p4ParamToOfParam := r.p4ParamToOfParam, ofParamToP4Param := r.ofParamToP4Param)
    decreases |params|
  {
    if params != [] {
      WithParamsFrame(d.WithParam(params[0]), params[1..]);
    }
  }

  lemma {:induction false} ActionBlockFrame(d: Dict, commands: set<string>, lines: seq<Line>, part: Part)
    requires |lines| > 0 && lines[0].ActionAnnotation?
    requires part != ActionMaps && forall l :: l in lines ==> !Writes(l, part)
    ensures Project(ActionBlock(d, commands, lines).0, part) == Project(d, part)
    decreases |lines|, 0
  {
    var d' := d.WithParams(lines[0].params);
    WithParamsFrame(d, lines[0].params);
    var commands' := commands + {ToLower(lines[0].command)};
    if |lines| >= 2 {
      assert forall l :: l in lines[1..] ==> l in lines;
      if lines[1].ActionAnnotation? {
        ActionBlockFrame(d', commands', lines[1..], part);
      } else if lines[1].ActionDefinition? {
        assert forall l :: l in lines[2..] ==> l in lines;
        ParseFrame(d'.WithAction(lines[1].name, commands'), lines[2..], part);
      }
    }
  }

  /**
   * After a table annotation and its definition, and no later table
   * annotation, the name in any casing looks up the id and the id looks up
   * the name as written; whatever the dictionaries held before is replaced.
   */
  lemma TableAnnotationDefines(d: Dict, id: nat, name: string, rest: seq<Line>, query: string)
    requires forall l :: l in rest ==> !l.TableAnnotation?
    requires ToLower(query) == ToLower(name)
    ensures var r := Parse(d, [TableAnnotation(id), TableDefinition(name)] + rest).0;
            r.P4TableToId(query) == Some(id) && r.TableIdToP4Name(id) == Some(name)
  {
    var lines := [TableAnnotation(id), TableDefinition(name)] + rest;
    assert lines[2..] == rest;
    ParseFrame(d.WithTable(name, id), rest, TableMaps);
  }

  /** A field annotation fills both directions, each keyed by the lower-cased name. */
  lemma FieldAnnotationDefines(d: Dict, ofField: string, p4Field: string, rest: seq<Line>,
                               ofQuery: string, p4Query: string)
    requires forall l :: l in rest ==> !l.FieldAnnotation?
    requires ToLower(ofQuery) == ToLower(ofField) && ToLower(p4Query) == ToLower(p4Field)
    ensures var r := Parse(d, [FieldAnnotation(ofField), FieldDefinition(p4Field)] + rest).0;
            r.P4FieldToOfField(p4Query) == Some(ofField) && r.OfFieldToP4Field(ofQuery) == Some(p4Field)
  {
    var lines := [FieldAnnotation(ofField), FieldDefinition(p4Field)] + rest;
    assert lines[2..] == rest;
    ParseFrame(d.WithField(ofField, p4Field), rest, FieldMaps);
  }

  /**
   * The commands of consecutive action annotations, lower-cased, map to
   * the action that follows them and back; the query set is compared after
   * lower-casing, so its casing does not matter.
   */
  lemma ActionAnnotationsDefine(d: Dict, annotations: seq<Line>, name: string, rest: seq<Line>,
                                p4Query: string, ofQuery: set<string>)
    requires |annotations| > 0 && forall l :: l in annotations ==> l.ActionAnnotation?
    requires forall l :: l in rest ==> !l.ActionAnnotation?
    requires ToLower(p4Query) == ToLower(name) && LowerSet(ofQuery) == CommandsOf(annotations)
    ensures var r := Parse(d, annotations + [ActionDefinition(name)] + rest).0;
            r.P4ActionToOfAction(p4Query) == Ok(CommandsOf(annotations))
            && r.OfActionToP4Action(ofQuery) == Some(name)
  {
    var lines := annotations + [ActionDefinition(name)] + rest;
    assert lines[0] == annotations[0];
    assert Parse(d, lines) == ActionBlock(d, {}, lines);
    var before := ActionBlockDefines(d, {}, annotations, name, rest);
    assert {} + CommandsOf(annotations) == CommandsOf(annotations);
    var defined := before.WithAction(name, CommandsOf(annotations));
    ParseFrame(defined, rest, ActionMaps);
    var r := Parse(defined, rest).0;
    assert r.p4ActionToOfAction == defined.p4ActionToOfAction;
    assert r.ofActionToP4Action == defined.ofActionToP4Action;
  }

  /** The dictionaries the action definition is entered into, with the commands collected so far. */
  lemma {:induction false} ActionBlockDefines(d: Dict, commands: set<string>, annotations: seq<Line>,
                                              name: string, rest: seq<Line>) returns (before: Dict)
    requires |annotations| > 0 && forall l :: l in annotations ==> l.ActionAnnotation?
    ensures var all := commands + CommandsOf(annotations);
            ActionBlock(d, commands, annotations + [ActionDefinition(name)] + rest)
              == Parse(before.WithAction(name, all), rest)
    decreases |annotations|
  {
    var lines := annotations + [ActionDefinition(name)] + rest;
    var d' := d.WithParams(annotations[0].params);
    var commands' := commands + {ToLower(annotations[0].command)};
    assert lines[0] == annotations[0] && lines[1..] == annotations[1..] + [ActionDefinition(name)] + rest;
    if |annotations| == 1 {
      assert lines[1] == ActionDefinition(name) && lines[2..] == rest;
      assert CommandsOf(annotations) == {ToLower(annotations[0].command)};
      assert ActionBlock(d, commands, lines) == Parse(d'.WithAction(name, commands'), rest);
      before := d';
    } else {
      assert lines[1] == annotations[1];
      assert forall l :: l in annotations[1..] ==> l in annotations;
      assert ActionBlock(d, commands, lines) == ActionBlock(d', commands', lines[1..]);
      before := ActionBlockDefines(d', commands', annotations[1..], name, rest);
      CommandsOfCons(annotations);
      assert commands' + CommandsOf(annotations[1..]) == commands + CommandsOf(annotations);
    }
  }

  lemma CommandsOfCons(annotations: seq<Line>)
    requires |annotations| > 0 && forall l :: l in annotations ==> l.ActionAnnotation?
    ensures CommandsOf(annotations) == {ToLower(annotations[0].command)} + CommandsOf(annotations[1..])
  {
    forall x | x in CommandsOf(annotations)
      ensures x in {ToLower(annotations[0].command)} + CommandsOf(annotations[1..])
    {
      var l :| l in annotations && x == ToLower(l.command);
      if l != annotations[0] {
        assert l in annotations[1..];
      }
    }
  }

  /**
   * Each `of=p4` pair fills both parameter maps inversely, keyed lower-case,
   * and a later pair with the same key wins.
   */
  lemma ParamPairDefines(d: Dict, params: seq<(string, string)>, ofParam: string, p4Param: string,
                         ofQuery: string, p4Query: string)
    requires ToLower(ofQuery) == ToLower(ofParam) && ToLower(p4Query) == ToLower(p4Param)
    ensures var r := d.WithParams(params + [(ofParam, p4Param)]);
            r.OfParamToP4Param(ofQuery) == Some(p4Param) && r.P4ParamToOfParam(p4Query) == Some(ofParam)
  {
    WithParamsSnoc(d, params, (ofParam, p4Param));
  }

  lemma {:induction false} WithParamsSnoc(d: Dict, params: seq<(string, string)>, last: (string, string))
    ensures d.WithParams(params + [last]) == d.WithParams(params).WithParam(last)
    decreases |params|
  {
    if params == [] {
      assert [] + [last] == [last];
      assert [last][1..] == [];
    } else {
      assert (params + [last])[0] == params[0] && (params + [last])[1..] == params[1..] + [last];
      WithParamsSnoc(d.WithParam(params[0]), params[1..], last);
    }
  }

  /** The action lookup by OpenFlow commands ignores their casing. */
  lemma OfActionLookupIgnoresCase(d: Dict, a: set<string>, b: set<string>)
    requires LowerSet(a) == LowerSet(b)
    ensures d.OfActionToP4Action(a) == d.OfActionToP4Action(b)
  {
  }

  /** A P4 action name that no annotation defined makes `p4ActionToOfAction` throw. */
  lemma UnknownActionFails(lines: seq<Line>, query: string)
    requires forall l :: l in lines ==> !l.ActionAnnotation?
    ensures Parse(EmptyDict(), lines).0.P4ActionToOfAction(query) == Err(NullPointer)
  {
    ParseFrame(EmptyDict(), lines, ActionMaps);
  }

  /** The object whose eight HashMaps `parseP4File` fills. */
  class P4Dict {
    var p4TablesToIds: map<string, int>
    var tableIdsToP4Names: map<int, string>
    var p4FieldToOfField: map<string, string>
    var ofFieldToP4Field: map<string, string>
    var p4ActionToOfAction: map<string, set<string>>
    var ofActionToP4Action: map<set<string>, string>
    var p4ParamToOfParam: map<string, string>
    var ofParamToP4Param: map<string, string>

    function Contents(): Dict
      reads this
    {
      Dict(p4TablesToIds, tableIdsToP4Names, p4FieldToOfField, ofFieldToP4Field,
           p4ActionToOfAction, ofActionToP4Action, p4ParamToOfParam, ofParamToP4Param)
    }

    constructor()
      ensures Contents() == EmptyDict()
    {
      p4TablesToIds := map[];
      tableIdsToP4Names := map[];
      p4FieldToOfField := map[];
      ofFieldToP4Field := map[];
      p4ActionToOfAction := map[];
      ofActionToP4Action := map[];
      p4ParamToOfParam := map[];
      ofParamToP4Param := map[];
    }

    /** The inner loop over the `of=p4` pairs of one action annotation. */
    method PutParams(params: seq<(string, string)>)
      modifies this
      ensures Contents() == old(Contents()).WithParams(params)
    {
      for k := 0 to |params|
        invariant Contents().WithParams(params[k..]) == old(Contents()).WithParams(params)
      {
        assert params[k..][0] == params[k] && params[k..][1..] == params[k + 1..];
        p4ParamToOfParam := p4ParamToOfParam[ToLower(params[k].1) := params[k].0];
        ofParamToP4Param := ofParamToP4Param[ToLower(params[k].0) := params[k].1];
      }
    }

    /**
     * `parseP4File` over the classified lines: the outcome, and the maps
     * as they stand when the loop ends, are those `Parse` describes.
     */
    method ParseP4File(lines: seq<Line>) returns (r: Outcome)
      modifies this
      ensures (Contents(), r) == Parse(old(Contents()), lines)
    {
      var i := 0;
      while i < |lines|
        invariant 0 <= i <= |lines|
        invariant Parse(Contents(), lines[i..]) == Parse(old(Contents()), lines)
        decreases |lines| - i
      {
        assert lines[i..][0] == lines[i];
        match lines[i]
        case TableAnnotation(id) =>
          if i + 1 == |lines| {
            return Fail(NullPointer);
          }
          assert lines[i..][1] == lines[i + 1];
          if !lines[i + 1].TableDefinition? {
            return Fail(IllegalArgument(TABLE_EXPECTED));
          }
          assert lines[i..][2..] == lines[i + 2..];
          p4TablesToIds := p4TablesToIds[ToLower(lines[i + 1].name) := id];
          tableIdsToP4Names := tableIdsToP4Names[id := lines[i + 1].name];
          i := i + 2;
        case FieldAnnotation(ofField) =>
          if i + 1 == |lines| {
            return Fail(NullPointer);
          }
          assert lines[i..][1] == lines[i + 1];
          if !lines[i + 1].FieldDefinition? {
            return Fail(IllegalArgument(FIELD_EXPECTED));
          }
          assert lines[i..][2..] == lines[i + 2..];
          p4FieldToOfField := p4FieldToOfField[ToLower(lines[i + 1].p4Field) := ofField];
          ofFieldToP4Field := ofFieldToP4Field[ToLower(ofField) := lines[i + 1].p4Field];
          i := i + 2;
        case ActionAnnotation(_, _) =>
          var stop;
          i, stop := ParseActionBlock(lines, i);
          if stop.Some? {
            return stop.value;
          }
        case OtherAnnotation =>
          return Fail(IllegalArgument(UNRECOGNIZED));
        case _ =>
          assert lines[i..][1..] == lines[i + 1..];
          i := i + 1;
      }
      r := Pass;
    }

    /**
     * The do-while over the action annotations starting at line i, and the
     * action definition after them. Either parsing stops with an outcome, or
     * it goes on at line `next`.
     */
    method ParseActionBlock(lines: seq<Line>, i: int) returns (next: int, stop: Option<Outcome>)
      requires 0 <= i < |lines| && lines[i].ActionAnnotation?
      modifies this
      ensures stop.Some? ==> (Contents(), stop.value) == ActionBlock(old(Contents()), {}, lines[i..])
      ensures stop.None? ==> i < next <= |lines| && Parse(Contents(), lines[next..]) == ActionBlock(old(Contents()), {}, lines[i..])
    {
      var commands: set<string> := {};
      var j := i;
      while true
        invariant i <= j < |lines| && lines[j].ActionAnnotation?
        invariant ActionBlock(Contents(), commands, lines[j..]) == ActionBlock(old(Contents()), {}, lines[i..])
        decreases |lines| - j
      {
        assert lines[j..][0] == lines[j];
        commands := commands + {ToLower(lines[j].command)};
        PutParams(lines[j].params);
        if j + 1 == |lines| {
          return j, Some(Fail(NullPointer));
        }
        assert lines[j..][1] == lines[j + 1] && lines[j..][1..] == lines[j + 1..];
        j := j + 1;
        if !lines[j].ActionAnnotation? {
          break;
        }
      }
      if !lines[j].ActionDefinition? {
        return j, Some(Fail(IllegalArgument(ACTION_EXPECTED)));
      }
      assert lines[j - 1..][2..] == lines[j + 1..];
      p4ActionToOfAction := p4ActionToOfAction[ToLower(lines[j].name) := commands];
      ofActionToP4Action := ofActionToP4Action[commands := lines[j].name];
      return j + 1, None;
    }
  }
}
