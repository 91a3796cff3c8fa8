/** src/storage/schema.rs: inferring one column type per canonical field name from
    a sample of records, and the `CREATE TABLE` statement for the result. */
module Schema {
  import opened Strings
  import opened Models

  // ---------------------------------------------------------------------------
  // Column types
  // ---------------------------------------------------------------------------

  datatype FieldType = Text | Integer | Float | Boolean | Json
  {
    /** `to_sql`: the DuckDB type of the column. */
    function ToSql(): (r: string)
      ensures r in {"TEXT", "BIGINT", "DOUBLE", "BOOLEAN"}
      ensures r == "TEXT" <==> this == Text || this == Json
    {
      match this
      case Text => "TEXT"
      case Integer => "BIGINT"
      case Float => "DOUBLE"
      case Boolean => "BOOLEAN"
      case Json => "TEXT"
    }

    /** `merge`: the more general of two types; the result can hold both. */
    function Merge(other: FieldType): (r: FieldType)
      ensures Widens(this, r) && Widens(other, r)
    {
      if this == other then this
      else match (this, other)
        case (Integer, Float) => Float
        case (Float, Integer) => Float
        case _ => Text
    }
  }

  /** `b` is at least as general as `a`: the promotion order of the merge rule,
      Integer below Float and everything below Text. */
  predicate Widens(a: FieldType, b: FieldType) {
    a == b || b == Text || (a == Integer && b == Float)
  }

  /** `Widens` is a partial order. */
  lemma WidensIsPartialOrder(a: FieldType, b: FieldType, c: FieldType)
    ensures Widens(a, a)
    ensures Widens(a, b) && Widens(b, a) ==> a == b
    ensures Widens(a, b) && Widens(b, c) ==> Widens(a, c)
  {
  }

  /** `merge` is the least upper bound in the promotion order. */
  lemma MergeIsLeastUpperBound(a: FieldType, b: FieldType, t: FieldType)
    requires Widens(a, t) && Widens(b, t)
    ensures Widens(a.Merge(b), t)
  {
  }

  /** The cases the merge rule names: a type with itself, Integer with Float in
      either order, and every other pair. */
  lemma MergeCases(a: FieldType, b: FieldType)
    ensures a.Merge(a) == a
    ensures Integer.Merge(Float) == Float && Float.Merge(Integer) == Float
    ensures a != b && {a, b} != {Integer, Float} ==> a.Merge(b) == Text
    ensures Text.Merge(a) == Text && a.Merge(Text) == Text
  {
  }

  /** `merge` is idempotent, commutative and associative. */
  lemma MergeIsSemilattice(a: FieldType, b: FieldType, c: FieldType)
    ensures a.Merge(a) == a
    ensures a.Merge(b) == b.Merge(a)
    ensures a.Merge(b).Merge(c) == a.Merge(b.Merge(c))
  {
  }

  /** `detect_field_type`: the column type a single value calls for. */
  function DetectFieldType(v: Value): (r: FieldType)
    ensures r == Text <==> v.Null? || v.String?
    ensures r == Boolean <==> v.Bool?
    ensures r == Integer <==> v.Number? && v.n.Int?
    ensures r == Float <==> v.Number? && v.n.Double?
    ensures r == Json <==> v.Array? || v.Object?
  {
    match v
    case Null => Text
    case Bool(_) => Boolean
    case Number(n) => if n.Int? then Integer else Float
    case String(_) => Text
    case Array(_) => Json
    case Object(_) => Json
  }

  // ---------------------------------------------------------------------------
  // Field names
  // ---------------------------------------------------------------------------

  /** The raw names with a canonical replacement. */
  const Aliases: set<string> := {"msg", "lvl", "timestamp"}

  /** `normalize_field_name`: the alias table. */
  function NormalizeFieldName(field: string): (r: string)
    ensures r !in Aliases
    ensures field !in Aliases ==> r == field
    ensures field == "msg" ==> r == "message"
    ensures field == "lvl" ==> r == "level"
    ensures field == "timestamp" ==> r == "time"
  {
    match field
    case "msg" => "message"
    case "lvl" => "level"
    case "timestamp" => "time"
    case _ => field
  }

  /** Exactly `msg` and `message` normalise to `message`. */
  lemma MessageSources(field: string)
    ensures NormalizeFieldName(field) == "message" <==> field == "msg" || field == "message"
  {
  }

  /** Exactly `lvl` and `level` normalise to `level`. */
  lemma LevelSources(field: string)
    ensures NormalizeFieldName(field) == "level" <==> field == "lvl" || field == "level"
  {
  }

  /** Exactly `timestamp` and `time` normalise to `time`. */
  lemma TimeSources(field: string)
    ensures NormalizeFieldName(field) == "time" <==> field == "timestamp" || field == "time"
  {
  }

  /** Canonical names are fixed points: normalising twice is normalising once. */
  lemma NormalizeIsIdempotent(field: string)
    ensures NormalizeFieldName(NormalizeFieldName(field)) == NormalizeFieldName(field)
  {
  }

  // ---------------------------------------------------------------------------
  // The inference fold
  // ---------------------------------------------------------------------------

  /** One step of `analyze_log`: the `entry(name).and_modify(merge).or_insert(detected)`
      for one raw field. */
  function Absorb(types: map<string, FieldType>, field: (string, Value)): map<string, FieldType> {
    var name := NormalizeFieldName(field.0);
    var detected := DetectFieldType(field.1);
    if name in types then types[name := types[name].Merge(detected)] else types[name := detected]
  }

  /** `analyze_log` over entries in the given order. */
  function AbsorbFields(types: map<string, FieldType>, fields: seq<(string, Value)>): map<string, FieldType>
    decreases |fields|
  {
    if fields == [] then types
    else Absorb(AbsorbFields(types, fields[..|fields| - 1]), fields[|fields| - 1])
  }

  /** `analyze_logs`: `analyze_log` for each record in turn. */
  function AbsorbLogs(types: map<string, FieldType>, logs: seq<JsonLog>): map<string, FieldType>
    decreases |logs|
  {
    if logs == [] then types
    else AbsorbFields(AbsorbLogs(types, logs[..|logs| - 1]), logs[|logs| - 1].fields)
  }

  /** The schema a fresh builder infers from a sample. */
  function InferSchema(logs: seq<JsonLog>): map<string, FieldType> {
    AbsorbLogs(map[], logs)
  }

  /** The canonical names of the given entries. */
  function NamesOf(fields: seq<(string, Value)>): set<string> {
    set p | p in fields :: NormalizeFieldName(p.0)
  }

  /** Everything known about the column `name`: its type so far and the types
      detected for the entries that normalise to it. */
  function Evidence(types: map<string, FieldType>, fields: seq<(string, Value)>, name: string): set<FieldType> {
    (if name in types then {types[name]} else {})
    + set p | p in fields && NormalizeFieldName(p.0) == name :: DetectFieldType(p.1)
  }

  /** The join of a non-empty set of types: the one type if there is one,
      Float for Integer with Float, and Text otherwise. */
  function JoinAll(s: set<FieldType>): FieldType
    requires s != {}
  {
    if s <= {Integer} then Integer
    else if s <= {Boolean} then Boolean
    else if s <= {Json} then Json
    else if s <= {Integer, Float} then Float
    else Text
  }

  lemma JoinAllSingle(t: FieldType)
    ensures JoinAll({t}) == t
  {
  }

  /** Adding one type to a set merges it into the set's join. */
  lemma JoinAllAdd(s: set<FieldType>, t: FieldType)
    requires s != {}
    ensures JoinAll(s + {t}) == JoinAll(s).Merge(t)
  {
    var j := JoinAll(s);
    if s <= {Integer} {
      assert s == {Integer};
    } else if s <= {Boolean} {
      assert s == {Boolean};
    } else if s <= {Json} {
      assert s == {Json};
    } else if s <= {Integer, Float} {
      assert Float in s;
    } else {
      assert !(s + {t} <= {Integer, Float});
    }
  }

  /** What the entries before the last one and the last one contribute to a name. */
  lemma EvidenceSnoc(types: map<string, FieldType>, before: seq<(string, Value)>, last: (string, Value), name: string)
    ensures Evidence(types, before + [last], name)
            == Evidence(types, before, name) + (if NormalizeFieldName(last.0) == name then {DetectFieldType(last.1)} else {})
  {
    var fields := before + [last];
    forall p | p in fields ensures p in before || p == last {
    }
  }

  /** A name no entry normalises to has only its old type as evidence. */
  lemma EvidenceOfUnnamed(types: map<string, FieldType>, fields: seq<(string, Value)>, name: string)
    requires name !in NamesOf(fields)
    ensures Evidence(types, fields, name) == if name in types then {types[name]} else {}
  {
    forall p | p in fields ensures NormalizeFieldName(p.0) != name {
      assert NormalizeFieldName(p.0) in NamesOf(fields);
    }
  }

  /** The keys of the fold are the old keys plus the canonical names of the entries. */
  lemma {:induction false} AbsorbFieldsKeys(types: map<string, FieldType>, fields: seq<(string, Value)>)
    ensures AbsorbFields(types, fields).Keys == types.Keys + NamesOf(fields)
    decreases |fields|
  {
    if fields != [] {
      var before := fields[..|fields| - 1];
      var last := fields[|fields| - 1];
      assert fields == before + [last];
      AbsorbFieldsKeys(types, before);
      assert NamesOf(fields) == NamesOf(before) + {NormalizeFieldName(last.0)};
    }
  }

  /** One step of the fold at one key: if the key's type so far is the join of `ev`
      (and the key is absent exactly when `ev` is empty), then after the step it is
      the join of `ev` with what the new entry contributes. */
  lemma AbsorbStep(m: map<string, FieldType>, ev: set<FieldType>, last: (string, Value), name: string)
    requires name in m ==> ev != {} && m[name] == JoinAll(ev)
    requires name !in m ==> ev == {}
    requires name in Absorb(m, last)
    ensures var grown := ev + (if NormalizeFieldName(last.0) == name then {DetectFieldType(last.1)} else {});
            grown != {} && Absorb(m, last)[name] == JoinAll(grown)
  {
    var t := DetectFieldType(last.1);
    if NormalizeFieldName(last.0) == name {
      if name in m {
        JoinAllAdd(ev, t);
      } else {
        assert ev + {t} == {t};
        JoinAllSingle(t);
      }
    } else {
      assert ev + {} == ev;
    }
  }

  /** The closed form of the fold at one key: its type is the join of all its
      evidence, whatever the order in which the entries came. */
  lemma {:induction false} AbsorbFieldsValue(types: map<string, FieldType>, fields: seq<(string, Value)>, name: string)
    requires name in AbsorbFields(types, fields)
    ensures Evidence(types, fields, name) != {}
    ensures AbsorbFields(types, fields)[name] == JoinAll(Evidence(types, fields, name))
    decreases |fields|
  {
    if fields == [] {
      assert Evidence(types, fields, name) == {types[name]};
      JoinAllSingle(types[name]);
    } else {
      var before := fields[..|fields| - 1];
      var last := fields[|fields| - 1];
      assert fields == before + [last];
      var m := AbsorbFields(types, before);
      assert AbsorbFields(types, fields) == Absorb(m, last);
      EvidenceSnoc(types, before, last, name);
      if name in m {
        AbsorbFieldsValue(types, before, name);
      } else {
        AbsorbFieldsKeys(types, before);
        EvidenceOfUnnamed(types, before, name);
      }
      AbsorbStep(m, Evidence(types, before, name), last, name);
    }
  }

  /** Only which entries are present matters, not their order or repetition:
      `analyze_log` is blind to the map's iteration order. */
  lemma AbsorbFieldsIgnoresOrder(types: map<string, FieldType>, fs: seq<(string, Value)>, gs: seq<(string, Value)>)
    requires forall p :: p in fs <==> p in gs
    ensures AbsorbFields(types, fs) == AbsorbFields(types, gs)
  {
    var a, b := AbsorbFields(types, fs), AbsorbFields(types, gs);
    AbsorbFieldsKeys(types, fs);
    AbsorbFieldsKeys(types, gs);
    SameMembersSameNames(fs, gs);
    forall name | name in a
      ensures a[name] == b[name]
    {
      SameMembersSameEvidence(types, fs, gs, name);
      AbsorbFieldsValue(types, fs, name);
      AbsorbFieldsValue(types, gs, name);
    }
  }

  lemma SameMembersSameNames(fs: seq<(string, Value)>, gs: seq<(string, Value)>)
    requires forall p :: p in fs <==> p in gs
    ensures NamesOf(fs) == NamesOf(gs)
  {
  }

  lemma SameMembersSameEvidence(types: map<string, FieldType>, fs: seq<(string, Value)>, gs: seq<(string, Value)>, name: string)
    requires forall p :: p in fs <==> p in gs
    ensures Evidence(types, fs, name) == Evidence(types, gs, name)
  {
  }

  lemma {:induction false} AbsorbFieldsAppend(types: map<string, FieldType>, a: seq<(string, Value)>, b: seq<(string, Value)>)
    ensures AbsorbFields(types, a + b) == AbsorbFields(AbsorbFields(types, a), b)
    decreases |b|
  {
    if b == [] {
      assert a + b == a;
    } else {
      var n := |b| - 1;
      assert (a + b)[..|a + b| - 1] == a + b[..n];
      assert (a + b)[|a + b| - 1] == b[n];
      AbsorbFieldsAppend(types, a, b[..n]);
    }
  }

  /** All entries of all records, record after record. */
  function Flatten(logs: seq<JsonLog>): seq<(string, Value)>
    decreases |logs|
  {
    if logs == [] then [] else Flatten(logs[..|logs| - 1]) + logs[|logs| - 1].fields
  }

  lemma FlattenMembers(logs: seq<JsonLog>, p: (string, Value))
    ensures p in Flatten(logs) <==> exists i :: 0 <= i < |logs| && p in logs[i].fields
  {
    if p in Flatten(logs) {
      var i := FlattenSource(logs, p);
    }
    if i :| 0 <= i < |logs| && p in logs[i].fields {
      FlattenContains(logs, i, p);
    }
  }

  /** Every entry of a record is among the flattened entries. */
  lemma {:induction false} FlattenContains(logs: seq<JsonLog>, i: nat, p: (string, Value))
    requires i < |logs| && p in logs[i].fields
    ensures p in Flatten(logs)
    decreases |logs|
  {
    var n := |logs| - 1;
    if i < n {
      assert logs[..n][i] == logs[i];
      FlattenContains(logs[..n], i, p);
    }
  }

  /** Every flattened entry comes from some record. */
  lemma {:induction false} FlattenSource(logs: seq<JsonLog>, p: (string, Value)) returns (i: nat)
    requires p in Flatten(logs)
    ensures i < |logs| && p in logs[i].fields
    decreases |logs|
  {
    var n := |logs| - 1;
    if p in logs[n].fields {
      i := n;
    } else {
      i := FlattenSource(logs[..n], p);
      assert logs[..n][i] == logs[i];
    }
  }

  /** Folding record by record is folding over all their entries. */
  lemma {:induction false} AbsorbLogsIsFlat(types: map<string, FieldType>, logs: seq<JsonLog>)
    ensures AbsorbLogs(types, logs) == AbsorbFields(types, Flatten(logs))
    decreases |logs|
  {
    if logs != [] {
      var n := |logs| - 1;
      AbsorbLogsIsFlat(types, logs[..n]);
      AbsorbFieldsAppend(types, Flatten(logs[..n]), logs[n].fields);
    }
  }

  /** The inferred schema does not depend on the order of the sample (nor on
      repeated records): any two samples with the same records give the same types. */
  lemma InferSchemaIgnoresOrder(logs: seq<JsonLog>, others: seq<JsonLog>)
    requires forall l :: l in logs <==> l in others
    ensures InferSchema(logs) == InferSchema(others)
  {
    AbsorbLogsIsFlat(map[], logs);
    AbsorbLogsIsFlat(map[], others);
    forall p ensures p in Flatten(logs) <==> p in Flatten(others) {
      FlattenMembers(logs, p);
      FlattenMembers(others, p);
      if i :| 0 <= i < |logs| && p in logs[i].fields {
        assert logs[i] in others;
      }
      if i :| 0 <= i < |others| && p in others[i].fields {
        assert others[i] in logs;
      }
    }
    AbsorbFieldsIgnoresOrder(map[], Flatten(logs), Flatten(others));
  }

  /** What `analyze_log` does to one record: the new keys are the old keys plus the
      record's canonical names, and a key the record does not mention keeps its type. */
  lemma AnalyzeLogKeys(types: map<string, FieldType>, log: JsonLog, name: string)
    ensures AbsorbFields(types, log.fields).Keys == types.Keys + NamesOf(log.fields)
    ensures name in types && name !in NamesOf(log.fields) ==> AbsorbFields(types, log.fields)[name] == types[name]
  {
    AbsorbFieldsKeys(types, log.fields);
    if name in types && name !in NamesOf(log.fields) {
      EvidenceOfUnnamed(types, log.fields, name);
      AbsorbFieldsValue(types, log.fields, name);
      JoinAllSingle(types[name]);
    }
  }

  /** When exactly one entry of the record normalises to a name, that name gets
      merge(old, detected) if it was known and the detected type if it was new. */
  lemma AnalyzeLogSingleSource(types: map<string, FieldType>, log: JsonLog, i: nat)
    requires i < |log.fields|
    requires forall j :: 0 <= j < |log.fields| && j != i ==>
               NormalizeFieldName(log.fields[j].0) != NormalizeFieldName(log.fields[i].0)
    ensures NormalizeFieldName(log.fields[i].0) in AbsorbFields(types, log.fields)
    ensures var name := NormalizeFieldName(log.fields[i].0);
            var t := DetectFieldType(log.fields[i].1);
            AbsorbFields(types, log.fields)[name] == if name in types then types[name].Merge(t) else t
  {
    var name := NormalizeFieldName(log.fields[i].0);
    var t := DetectFieldType(log.fields[i].1);
    AbsorbFieldsKeys(types, log.fields);
    assert name in NamesOf(log.fields);
    AbsorbFieldsValue(types, log.fields, name);
    EvidenceOfSingleSource(types, log.fields, i);
    if name in types {
      JoinAllAdd({types[name]}, t);
      JoinAllSingle(types[name]);
    } else {
      assert {} + {t} == {t};
      JoinAllSingle(t);
    }
  }

  /** The evidence for a name that exactly one entry normalises to. */
  lemma EvidenceOfSingleSource(types: map<string, FieldType>, fields: seq<(string, Value)>, i: nat)
    requires i < |fields|
    requires forall j :: 0 <= j < |fields| && j != i ==>
               NormalizeFieldName(fields[j].0) != NormalizeFieldName(fields[i].0)
    ensures var name := NormalizeFieldName(fields[i].0);
            Evidence(types, fields, name) == (if name in types then {types[name]} else {}) + {DetectFieldType(fields[i].1)}
  {
    var name := NormalizeFieldName(fields[i].0);
    var own := set p | p in fields && NormalizeFieldName(p.0) == name :: DetectFieldType(p.1);
    forall p | p in fields && NormalizeFieldName(p.0) == name ensures p == fields[i] {
      var j :| 0 <= j < |fields| && fields[j] == p;
    }
    assert own == {DetectFieldType(fields[i].1)};
  }

  // ---------------------------------------------------------------------------
  // The CREATE TABLE statement
  // ---------------------------------------------------------------------------

  /** The sequence for the identity column, the table header and the identity column. */
  function CreateTablePrelude(table: string): string {
    "CREATE SEQUENCE IF NOT EXISTS seq_" + table + "_id START 1;\n"
    + "CREATE TABLE " + table + " (\n"
    + "    id INTEGER PRIMARY KEY DEFAULT nextval('seq_" + table + "_id'),\n"
  }

  function ColumnDefinition(column: (string, FieldType)): string {
    "    " + column.0 + " " + column.1.ToSql()
  }

  function ColumnDefinitions(columns: seq<(string, FieldType)>): (r: seq<string>)
    ensures |r| == |columns|
    ensures forall i :: 0 <= i < |columns| ==> r[i] == ColumnDefinition(columns[i])
  {
    seq(|columns|, i requires 0 <= i < |columns| => ColumnDefinition(columns[i]))
  }

  /** The statement for a table with the given columns: the prelude, then the column
      definitions separated by ",\n" and ended by "\n", then ")". */
  function CreateTableSql(table: string, columns: seq<(string, FieldType)>): (r: string)
    ensures CreateTablePrelude(table) <= r && r[|r| - 1] == ')'
    ensures columns == [] ==> r == CreateTablePrelude(table) + ")"
    ensures |columns| == 1 ==> r == CreateTablePrelude(table) + ColumnDefinition(columns[0]) + "\n)"
  {
    CreateTablePrelude(table)
    + (if columns == [] then "" else Join(ColumnDefinitions(columns), ",\n") + "\n")
    + ")"
  }

  /** The columns of a schema, by name in sorted order. */
  ghost function Columns(types: map<string, FieldType>): (r: seq<(string, FieldType)>)
    ensures |r| == |SortedKeys(types.Keys)|
    ensures forall i :: 0 <= i < |r| ==> r[i].0 == SortedKeys(types.Keys)[i] && r[i].1 == types[r[i].0]
  {
    var names := SortedKeys(types.Keys);
    assert forall i :: 0 <= i < |names| ==> names[i] in names;
    seq(|names|, i requires 0 <= i < |names| => (names[i], types[names[i]]))
  }

  /** What `generate_create_table_sql`'s loop emits for the first `k` definitions: each followed by a
      comma unless it is the last of all, then by a newline. */
  function TerminatedLines(defs: seq<string>, k: nat): string
    requires k <= |defs|
  {
    if k == 0 then "" else TerminatedLines(defs, k - 1) + defs[k - 1] + (if k < |defs| then "," else "") + "\n"
  }

  /** One more line, regrouped: `(a + s) + (d + t) == (a + s + d) + t`. */
  lemma TerminatedLinesStep(defs: seq<string>, k: nat, head: string)
    requires 2 <= k <= |defs|
    requires TerminatedLines(defs, k - 1) == head + ",\n"
    ensures TerminatedLines(defs, k) == (head + ",\n" + defs[k - 1]) + (if k < |defs| then ",\n" else "\n")
  {
    assert "," + "\n" == ",\n";
  }

  /** The prelude, in the five pieces `generate_create_table_sql` pushes. */
  lemma PreludeInPieces(table: string)
    ensures "CREATE SEQUENCE IF NOT EXISTS seq_" + table + "_id START 1;\n"
            + ("CREATE TABLE " + table + " (\n")
            + "    id INTEGER PRIMARY KEY DEFAULT nextval('seq_"
            + table
            + "_id'),\n"
            == CreateTablePrelude(table)
  {
  }

  /** The definition of the `i`-th column of a schema, in sorted name order. */
  lemma DefinitionAt(types: map<string, FieldType>, names: seq<string>, i: nat)
    requires names == SortedKeys(types.Keys) && i < |names|
    ensures names[i] in types
    ensures ColumnDefinitions(Columns(types))[i] == "    " + names[i] + " " + types[names[i]].ToSql()
  {
    assert names[i] in names;
  }

  /** Pushing the next definition, a comma unless it is the last, and a newline after
      the prelude and the first `i` lines gives the first `i + 1` lines. */
  lemma LinePushed(before: string, prelude: string, defs: seq<string>, i: nat, definition: string)
    requires i < |defs| && before == prelude + TerminatedLines(defs, i) && definition == defs[i]
    ensures i < |defs| - 1 ==> before + definition + "," + "\n" == prelude + TerminatedLines(defs, i + 1)
    ensures i == |defs| - 1 ==> before + definition + "\n" == prelude + TerminatedLines(defs, i + 1)
  {
    var comma := if i < |defs| - 1 then "," else "";
    assert TerminatedLines(defs, i + 1) == TerminatedLines(defs, i) + defs[i] + comma + "\n";
    if i == |defs| - 1 {
      assert before + definition + comma == before + definition;
    }
  }

  /** The first `k` lines are the first `k` definitions joined by ",\n", followed by
      ",\n" when more definitions follow and by "\n" after the last. */
  lemma {:induction false} TerminatedLinesAreJoined(defs: seq<string>, k: nat)
    requires 1 <= k <= |defs|
    ensures TerminatedLines(defs, k) == Join(defs[..k], ",\n") + (if k < |defs| then ",\n" else "\n")
    decreases k
  {
    if k == 1 {
      assert defs[..1] == [defs[0]];
      assert "," + "\n" == ",\n";
    } else {
      TerminatedLinesAreJoined(defs, k - 1);
      assert defs[..k] == defs[..k - 1] + [defs[k - 1]];
      JoinSnoc(defs[..k - 1], defs[k - 1], ",\n");
      TerminatedLinesStep(defs, k, Join(defs[..k - 1], ",\n"));
    }
  }

  /** The prelude, every column line and the closing parenthesis make up the statement. */
  lemma EmittedIsCreateTableSql(table: string, columns: seq<(string, FieldType)>)
    ensures CreateTablePrelude(table) + TerminatedLines(ColumnDefinitions(columns), |columns|) + ")"
            == CreateTableSql(table, columns)
  {
    var defs := ColumnDefinitions(columns);
    if columns != [] {
      TerminatedLinesAreJoined(defs, |defs|);
      assert defs[..|defs|] == defs;
      assert TerminatedLines(defs, |defs|) == Join(defs, ",\n") + "\n";
    }
  }

  // ---------------------------------------------------------------------------
  // Sorting the names
  // ---------------------------------------------------------------------------

  /** `keys().cloned().collect()` followed by `sort()`: the keys in increasing order,
      built by repeatedly taking the least remaining key. */
  method SortNames(keys: set<string>) returns (names: seq<string>)
    ensures SortedListing(names, keys)
    ensures names == SortedKeys(keys)
  {
    names := [];
    var rest := keys;
    while rest != {}
      invariant StrictlySorted(names)
      invariant forall x :: x in keys <==> x in names || x in rest
      invariant forall x, y :: x in names && y in rest ==> Less(x, y)
      decreases rest
    {
      MinimumExists(rest);
      var m :| IsMinimum(m, rest);
      forall x | x in names ensures x != m {
        LessIrreflexive(x);
      }
      names := names + [m];
      rest := rest - {m};
    }
    SortedListingUnique(names, SortedKeys(keys), keys);
  }

  // ---------------------------------------------------------------------------
  // The builder
  // ---------------------------------------------------------------------------

  /** `SchemaBuilder`: a name-to-type map updated in place record by record. */
  class SchemaBuilder {
    var fieldTypes: map<string, FieldType>

    /** `new`: nothing seen yet. */
    constructor ()
      ensures fieldTypes == map[]
    {
      fieldTypes := map[];
    }

    /** `analyze_log`. */
    method AnalyzeLog(log: JsonLog)
      modifies this
      ensures fieldTypes == AbsorbFields(old(fieldTypes), log.fields)
    {
      var i := 0;
      while i < |log.fields|
        invariant 0 <= i <= |log.fields|
        invariant fieldTypes == AbsorbFields(old(fieldTypes), log.fields[..i])
      {
        var (fieldName, value) := log.fields[i];
        var name := NormalizeFieldName(fieldName);
        var detected := DetectFieldType(value);
        if name in fieldTypes {
          fieldTypes := fieldTypes[name := fieldTypes[name].Merge(detected)];
        } else {
          fieldTypes := fieldTypes[name := detected];
        }
        assert log.fields[..i + 1][..i] == log.fields[..i];
        i := i + 1;
      }
      assert log.fields[..i] == log.fields;
    }

    /** `analyze_logs`. */
    method AnalyzeLogs(logs: seq<JsonLog>)
      modifies this
      ensures fieldTypes == AbsorbLogs(old(fieldTypes), logs)
    {
      var i := 0;
      while i < |logs|
        invariant 0 <= i <= |logs|
        invariant fieldTypes == AbsorbLogs(old(fieldTypes), logs[..i])
      {
        AnalyzeLog(logs[i]);
        assert logs[..i + 1][..i] == logs[..i];
        i := i + 1;
      }
      assert logs[..i] == logs;
    }

    /** `generate_create_table_sql`: the statement for the current schema, columns
      in sorted name order. */
    method GenerateCreateTableSql(tableName: string) returns (sql: string)
      ensures sql == CreateTableSql(tableName, Columns(fieldTypes))
    {
      sql := "CREATE SEQUENCE IF NOT EXISTS seq_" + tableName + "_id START 1;\n";
      sql := sql + ("CREATE TABLE " + tableName + " (\n");
      sql := sql + "    id INTEGER PRIMARY KEY DEFAULT nextval('seq_";
      sql := sql + tableName;
      sql := sql + "_id'),\n";
      PreludeInPieces(tableName);

      var names := SortNames(fieldTypes.Keys);
      var fields := SortedFields(names);
      sql := PushColumnDefinitions(sql, fields);
      sql := sql + ")";
      EmittedIsCreateTableSql(tableName, fields);
    }

    /** The entries of `field_types`, in the order of the sorted names. */
    function SortedFields(names: seq<string>): (fields: seq<(string, FieldType)>)
      requires names == SortedKeys(fieldTypes.Keys)
      reads this
      ensures fields == Columns(fieldTypes)
    {
      var types := fieldTypes;
      assert forall i :: 0 <= i < |names| ==> names[i] in names;
      var fields := seq(|names|, i requires 0 <= i < |names| => (names[i], types[names[i]]));
      assert forall i :: 0 <= i < |names| ==> fields[i] == Columns(types)[i];
      fields
    }

    /** The loop over the sorted entries: one definition per line, each but the last
        followed by a comma. */
    static method PushColumnDefinitions(prefix: string, fields: seq<(string, FieldType)>) returns (sql: string)
      ensures sql == prefix + TerminatedLines(ColumnDefinitions(fields), |fields|)
    {
      sql := prefix;
      ghost var defs := ColumnDefinitions(fields);
      var i := 0;
      while i < |fields|
        invariant 0 <= i <= |fields| == |defs|
        invariant sql == prefix + TerminatedLines(defs, i)
      {
        var (fieldName, fieldType) := fields[i];
        var sqlType := fieldType.ToSql();
        var definition := "    " + fieldName + " " + sqlType;
        LinePushed(sql, prefix, defs, i, definition);
        sql := sql + definition;
        if i < |fields| - 1 {
          sql := sql + ",";
        }
        sql := sql + "\n";
        i := i + 1;
      }
    }

    /** `field_types`. */
    function FieldTypes(): map<string, FieldType>
      reads this
    {
      fieldTypes
    }

    /** `field_names`: every inferred name once, in increasing order. */
    method FieldNames() returns (names: seq<string>)
      ensures SortedListing(names, fieldTypes.Keys)
      ensures names == SortedKeys(fieldTypes.Keys)
    {
      names := SortNames(fieldTypes.Keys);
    }
  }
}
