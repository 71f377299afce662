/** Saving a worksheet as records and reading it back. */
module Checkpoints {
  import opened Wrappers
  import opened Worksheets

  // ----- Fields -----

  function FromOption(o: Option<string>): Json { if o.None? then Null else Str(o.value) }
  function FromReal(o: Option<real>): Json { if o.None? then Null else Num(o.value) }
  function FromTexts(ss: seq<string>): Json { Arr(seq(|ss|, i requires 0 <= i < |ss| => Str(ss[i]))) }
  function FromTextMap(m: map<string, string>): Json { Obj(map k <- m :: Str(m[k])) }

  function Text(j: Json): Option<string> { if j.Str? then Some(j.s) else None }

  /** A field that may be missing or null. */
  function OptionalText(j: Json): Option<Option<string>> {
    match j
    case Null => Some(None)
    case Str(s) => Some(Some(s))
    case _ => None
  }

  function OptionalReal(j: Json): Option<Option<real>> {
    match j
    case Null => Some(None)
    case Num(n) => Some(Some(n))
    case _ => None
  }

  function Texts(j: Json): Option<seq<string>> {
    match j
    case Null => Some([])
    case Arr(items) =>
      if forall i <- items :: i.Str?
      then Some(seq(|items|, i requires 0 <= i < |items| && items[i].Str? => items[i].s)) else None
    case _ => None
  }

  function Items(j: Json): Option<seq<Json>> {
    match j
    case Null => Some([])
    case Arr(items) => Some(items)
    case _ => None
  }

  function Fields(j: Json): Option<map<string, Json>> {
    match j
    case Null => Some(map[])
    case Obj(fields) => Some(fields)
    case _ => None
  }

  function TextMap(j: Json): Option<map<string, string>> {
    match j
    case Null => Some(map[])
    case Obj(fields) =>
      if forall k <- fields :: fields[k].Str? then Some(map k | k in fields && fields[k].Str? :: fields[k].s) else None
    case _ => None
  }

  /** What a record holds under a name; a missing field reads as null. */
  function Get(fields: map<string, Json>, name: string): Json { if name in fields then fields[name] else Null }

  /** A field that may be left out, with a default. */
  function TextOr(fields: map<string, Json>, name: string, other: string): Option<string> {
    if name in fields then Text(fields[name]) else Some(other)
  }

  /** A list of texts that must be there. */
  function NeededTexts(fields: map<string, Json>, name: string): Option<seq<string>> {
    if name in fields && fields[name].Arr? then Texts(fields[name]) else None
  }

  /** A list that may be left out, but not null. */
  function ItemsOr(fields: map<string, Json>, name: string): Option<seq<Json>> {
    if name !in fields then Some([]) else if fields[name].Arr? then Some(fields[name].items) else None
  }

  function StateName(s: CellState): string {
    match s
    case Pending => "pending"
    case Ok => "ok"
    case Failed => "failed"
  }

  function StateOf(j: Json): Option<CellState> {
    if j == Str("pending") then Some(Pending)
    else if j == Str("ok") then Some(Ok) else if j == Str("failed") then Some(Failed) else None
  }

  // ----- Cells -----

  function ResultRecord(r: MetricResult): Json {
    Obj(map["name" := Str(r.name), "kind" := Str(r.kind), "score" := FromReal(r.score), "judgement" := Str(r.judgement),
            "value" := FromReal(r.value), "unit" := FromOption(r.unit)])
  }

  function ReadResult(j: Json): Option<MetricResult> {
    if !j.Obj? then None
    else
      var f := j.fields;
      var name, kind, judgement := Text(Get(f, "name")), TextOr(f, "kind", "score"), TextOr(f, "judgement", "");
      var score, value, unit := OptionalReal(Get(f, "score")), OptionalReal(Get(f, "value")),
        OptionalText(Get(f, "unit"));
      if name.Some? && kind.Some? && score.Some? && judgement.Some? && value.Some? && unit.Some?
      then Some(MetricResult(name.value, kind.value, score.value, judgement.value, value.value, unit.value)) else None
  }

  function ScoreRecord(c: ScoreCell): Json {
    Obj(map["state" := Str(StateName(c.state)),
      "result" := if c.result.Some? then ResultRecord(c.result.value) else Null,
      "error" := FromOption(c.error)])
  }

  /** No result, null and an empty record all read as no result. */
  function ReadOptionalResult(j: Json): Option<Option<MetricResult>> {
    if j == Null || j == Obj(map[]) then Some(None)
    else
      var r := ReadResult(j);
      if r.Some? then Some(Some(r.value)) else None
  }

  function ReadScore(j: Json): Option<ScoreCell> {
    if !j.Obj? then None
    else
      var state, result, error := StateOf(Get(j.fields, "state")), ReadOptionalResult(Get(j.fields, "result")),
        OptionalText(Get(j.fields, "error"));
      if state.Some? && result.Some? && error.Some? then Some(ScoreCell(state.value, result.value, error.value))
      else None
  }

  function ScoresRecord(scores: map<string, ScoreCell>): Json { Obj(map name <- scores :: ScoreRecord(scores[name])) }

  function ReadScores(j: Json): Option<map<string, ScoreCell>> {
    var fields := Fields(j);
    if fields.Some? && forall name <- fields.value :: ReadScore(fields.value[name]).Some?
    then Some(map name | name in fields.value && ReadScore(fields.value[name]).Some?
                :: ReadScore(fields.value[name]).value)
    else None
  }

  function SolveRecord(c: SolveCell): Json {
    Obj(map["state" := Str(StateName(c.state)), "response" := FromOption(c.answer.response),
      "retrieved" := FromTexts(c.answer.retrieved), "citations" := Arr(c.answer.citations),
      "observations" := Obj(c.answer.observations), "error" := FromOption(c.error)])
  }

  function ReadSolve(j: Json): Option<SolveCell> {
    if !j.Obj? then None
    else
      var f := j.fields;
      var state, response, retrieved := StateOf(Get(f, "state")), OptionalText(Get(f, "response")),
        Texts(Get(f, "retrieved"));
      var citations, observations, error := Items(Get(f, "citations")), Fields(Get(f, "observations")),
        OptionalText(Get(f, "error"));
      if state.Some? && response.Some? && retrieved.Some? && citations.Some? && observations.Some? && error.Some?
      then Some(SolveCell(state.value, Answer(response.value, retrieved.value, citations.value, observations.value),
        error.value))
      else None
  }

  // ----- Rows -----

  function SeedFields(s: Seed): map<string, Json> {
    map["arm_id" := Str(s.armId), "arm_key" := Str(s.armKey), "corpus" := Str(s.corpus), "case_id" := Str(s.caseId),
        "run_id" := Str(s.runId), "query" := Str(s.query), "expected_behavior" := Str(s.expectedBehavior),
        "ground_truth" := FromOption(s.groundTruth), "dimensions" := FromTextMap(s.dimensions),
        "evidence_sources" := FromTexts(s.evidenceSources), "candidate_sources" := FromTexts(s.candidateSources)]
  }

  function ReadSeed(f: map<string, Json>): Option<Seed> {
    var armId, armKey, corpus := Text(Get(f, "arm_id")), Text(Get(f, "arm_key")), TextOr(f, "corpus", "");
    var caseId, runId, query := Text(Get(f, "case_id")), TextOr(f, "run_id", ""), Text(Get(f, "query"));
    var behavior, truth := TextOr(f, "expected_behavior", "answer"), OptionalText(Get(f, "ground_truth"));
    var dimensions, evidence, candidates := TextMap(Get(f, "dimensions")), Texts(Get(f, "evidence_sources")),
      Texts(Get(f, "candidate_sources"));
    if armId.Some? && armKey.Some? && corpus.Some? && caseId.Some? && runId.Some? && query.Some? && behavior.Some?
       && truth.Some? && dimensions.Some? && evidence.Some? && candidates.Some?
    then Some(Seed(armId.value, armKey.value, corpus.value, caseId.value, runId.value, query.value, behavior.value,
                truth.value, dimensions.value, evidence.value, candidates.value))
    else None
  }

  function RowRecord(r: Row): map<string, Json> {
    RowFields(r.seed, SolveRecord(r.solve), ScoresRecord(r.scores), r.meta)
  }

  function RowFields(seed: Seed, solve: Json, scores: Json, meta: map<string, Json>): map<string, Json> {
    SeedFields(seed) + map["kind" := Str("row"), "solve" := solve, "scores" := scores, "meta" := Obj(meta)]
  }

  function ReadRow(f: map<string, Json>): Option<Row> {
    var seed, solve, scores, meta := ReadSeed(f), ReadSolve(Get(f, "solve")), ReadScores(Get(f, "scores")),
      Fields(Get(f, "meta"));
    if seed.Some? && solve.Some? && scores.Some? && meta.Some?
      then Some(Row(seed.value, solve.value, scores.value, meta.value)) else None
  }

  // ----- Round trips of the parts -----

  lemma TextsBack(ss: seq<string>)
    ensures Texts(FromTexts(ss)) == Some(ss)
  {
    assert Texts(FromTexts(ss)).value == ss;
  }

  lemma TextMapBack(m: map<string, string>)
    ensures TextMap(FromTextMap(m)) == Some(m)
  {
    assert TextMap(FromTextMap(m)).value == m;
  }

  lemma ResultBack(r: MetricResult)
    ensures ReadResult(ResultRecord(r)) == Some(r) && ResultRecord(r) != Obj(map[])
  {
    var f := ResultRecord(r).fields;
    assert "name" in f;
  }

  lemma ScoreBack(c: ScoreCell)
    ensures ReadScore(ScoreRecord(c)) == Some(c)
  {
    if c.result.Some? { ResultBack(c.result.value); }
  }

  lemma FieldsScores(fields: map<string, Json>, scores: map<string, ScoreCell>)
    requires fields.Keys == scores.Keys && forall name <- scores :: ReadScore(fields[name]) == Some(scores[name])
    ensures ReadScores(Obj(fields)) == Some(scores)
  {
    assert ReadScores(Obj(fields)).value == scores;
  }

  lemma ScoresBack(scores: map<string, ScoreCell>)
    ensures ReadScores(ScoresRecord(scores)) == Some(scores)
  {
    forall name <- scores ensures ReadScore(ScoreRecord(scores[name])) == Some(scores[name]) {
      ScoreBack(scores[name]);
    }
    FieldsScores(map name <- scores :: ScoreRecord(scores[name]), scores);
  }

  lemma SolveBack(c: SolveCell)
    ensures ReadSolve(SolveRecord(c)) == Some(c)
  {
    TextsBack(c.answer.retrieved);
  }

  lemma SeedBack(s: Seed, more: map<string, Json>)
    requires more.Keys !! SeedFields(s).Keys
    ensures ReadSeed(SeedFields(s) + more) == Some(s)
  {
    TextMapBack(s.dimensions);
    TextsBack(s.evidenceSources);
    TextsBack(s.candidateSources);
  }

  lemma FieldsBack(seed: Seed, solve: Json, scores: Json, meta: map<string, Json>)
    ensures var f := RowFields(seed, solve, scores, meta);
      Get(f, "solve") == solve && Get(f, "scores") == scores && Get(f, "meta") == Obj(meta)
        && Get(f, "kind") == Str("row")
  {
    var more := map["kind" := Str("row"), "solve" := solve, "scores" := scores, "meta" := Obj(meta)];
    assert "solve" in more && "scores" in more && "meta" in more && "kind" in more;
  }

  lemma SeedReads(seed: Seed, solve: Json, scores: Json, meta: map<string, Json>)
    ensures ReadSeed(RowFields(seed, solve, scores, meta)) == Some(seed)
  {
    var more := map["kind" := Str("row"), "solve" := solve, "scores" := scores, "meta" := Obj(meta)];
    assert more.Keys == {"kind", "solve", "scores", "meta"};
    SeedBack(seed, more);
  }

  lemma PartsRead(r: Row, f: map<string, Json>, solve: Json, scores: Json)
    requires ReadSeed(f) == Some(r.seed) && Get(f, "meta") == Obj(r.meta)
    requires Get(f, "solve") == solve && ReadSolve(solve) == Some(r.solve)
    requires Get(f, "scores") == scores && ReadScores(scores) == Some(r.scores)
    ensures ReadRow(f) == Some(r)
  {
  }

  lemma FieldsRead(r: Row, solve: Json, scores: Json)
    requires ReadSolve(solve) == Some(r.solve) && ReadScores(scores) == Some(r.scores)
    ensures ReadRow(RowFields(r.seed, solve, scores, r.meta)) == Some(r)
  {
    FieldsBack(r.seed, solve, scores, r.meta);
    SeedReads(r.seed, solve, scores, r.meta);
    PartsRead(r, RowFields(r.seed, solve, scores, r.meta), solve, scores);
  }

  /** Reading a row's record gives the row back. */
  lemma RowBack(r: Row)
    ensures ReadRow(RowRecord(r)) == Some(r)
  {
    SolveBack(r.solve);
    ScoresBack(r.scores);
    FieldsRead(r, SolveRecord(r.solve), ScoresRecord(r.scores));
  }

  // ----- Whole checkpoints -----

  type Record = map<string, Json>

  function ProvisionRecord(key: string, p: Provision): Json {
    Obj(map["key" := Str(key), "state" := Str(StateName(p.state)), "subject_id" := FromOption(p.subject),
      "error" := FromOption(p.error)])
  }

  function ReadProvision(j: Json): Option<(string, Provision)> {
    if !j.Obj? then None
    else
      var key, state := Text(Get(j.fields, "key")), StateOf(Get(j.fields, "state"));
      var subject, error := OptionalText(Get(j.fields, "subject_id")), OptionalText(Get(j.fields, "error"));
      if key.Some? && state.Some? && subject.Some? && error.Some?
      then Some((key.value, Provision(state.value, subject.value, error.value))) else None
  }

  function ProvisionRecords(provisions: map<string, Provision>, order: seq<string>): seq<Json>
    requires forall key <- order :: key in provisions
  {
    if order == [] then []
    else
      var n := |order| - 1;
      ProvisionRecords(provisions, order[..n]) + [ProvisionRecord(order[n], provisions[order[n]])]
  }

  /** Later records of one key win. */
  function ReadProvisions(items: seq<Json>): Option<map<string, Provision>> {
    if items == [] then Some(map[])
    else
      var before, last := ReadProvisions(items[..|items| - 1]), ReadProvision(items[|items| - 1]);
      if before.Some? && last.Some? then Some(before.value[last.value.0 := last.value.1]) else None
  }

  function ArtifactRecord(a: Artifact): Json {
    Obj(map["name" := Str(a.name), "path" := Str(a.path)])
  }

  /** An artifact has just these two fields. */
  function ReadArtifact(j: Json): Option<Artifact> {
    if j.Obj? && j.fields.Keys == {"name", "path"} && j.fields["name"].Str? && j.fields["path"].Str?
    then Some(Artifact(j.fields["name"].s, j.fields["path"].s)) else None
  }

  function ArtifactRecords(artifacts: seq<Artifact>): Json {
    Arr(seq(|artifacts|, i requires 0 <= i < |artifacts| => ArtifactRecord(artifacts[i])))
  }

  function ReadArtifacts(j: Json): Option<seq<Artifact>> {
    match j
    case Arr(items) =>
      if forall i <- items :: ReadArtifact(i).Some?
      then Some(seq(|items|,
                    i requires 0 <= i < |items| && ReadArtifact(items[i]).Some? => ReadArtifact(items[i]).value))
      else None
    case _ => None
  }

  lemma ArtifactsBack(artifacts: seq<Artifact>)
    ensures ReadArtifacts(ArtifactRecords(artifacts)) == Some(artifacts)
  {
    forall i | 0 <= i < |artifacts| ensures ReadArtifact(ArtifactRecord(artifacts[i])) == Some(artifacts[i]) {
      assert ArtifactRecord(artifacts[i]).fields.Keys == {"name", "path"};
    }
    assert ReadArtifacts(ArtifactRecords(artifacts)).value == artifacts;
  }

  function MetaRecord(sheet: Sheet, provisions: seq<Json>): Record {
    map["kind" := Str("meta"), "experiment" := Str(sheet.experiment), "experiment_hash" := Str(sheet.hash),
        "run_id" := Str(sheet.runId), "created_at" := Str(sheet.createdAt),
        "artifacts" := ArtifactRecords(sheet.artifacts),
        "metric_names" := FromTexts(sheet.metricNames), "provisions" := Arr(provisions)]
  }

  /** The worksheet a meta record describes, with the given rows. */
  function ReadMeta(f: Record, rows: map<RowKey, Row>): Option<Sheet> {
    var experiment, hash, names := Text(Get(f, "experiment")), Text(Get(f, "experiment_hash")),
      NeededTexts(f, "metric_names");
    var runId, createdAt, items := TextOr(f, "run_id", ""), TextOr(f, "created_at", ""), ItemsOr(f, "provisions");
    var artifacts := if "artifacts" in f then ReadArtifacts(f["artifacts"]) else Some([]);
    if experiment.Some? && hash.Some? && names.Some? && runId.Some? && createdAt.Some? && items.Some?
      && artifacts.Some?
    then
      var provisions := ReadProvisions(items.value);
      if provisions.Some?
      then
        Some(Sheet(experiment.value, hash.value, runId.value, createdAt.value, artifacts.value, names.value, rows,
          provisions.value))
      else None
    else None
  }

  predicate IsMeta(f: Record) { Get(f, "kind") == Str("meta") }

  /** The rows of the records that are not meta records; later rows of one key win. */
  function ReadRows(lines: seq<Record>): Option<map<RowKey, Row>> {
    if lines == [] then Some(map[])
    else
      var before, last := ReadRows(lines[..|lines| - 1]), lines[|lines| - 1];
      if before.None? || IsMeta(last) then before
      else if ReadRow(last).None? then None
      else Some(before.value[KeyOf(ReadRow(last).value.seed) := ReadRow(last).value])
  }

  /** The last meta record. */
  function FindMeta(lines: seq<Record>): Option<Record> {
    if lines == [] then None
    else if IsMeta(lines[|lines| - 1]) then Some(lines[|lines| - 1]) else FindMeta(lines[..|lines| - 1])
  }

  /** No worksheet comes of records without a meta record or with one that cannot be read. */
  function Read(lines: seq<Record>): Option<Sheet> {
    var meta, rows := FindMeta(lines), ReadRows(lines);
    if meta.None? || rows.None? then None else ReadMeta(meta.value, rows.value)
  }

  function RowLines(rows: map<RowKey, Row>, order: seq<RowKey>): (lines: seq<Record>)
    requires forall k <- order :: k in rows
    ensures |lines| == |order|
  {
    if order == [] then [] else RowLines(rows, order[..|order| - 1]) + [RowRecord(rows[order[|order| - 1]])]
  }

  /** The records of a worksheet, with its provisions and rows in any order. */
  function Lines(sheet: Sheet, keys: seq<string>, order: seq<RowKey>): seq<Record>
    requires (forall key <- keys :: key in sheet.provisions) && forall k <- order :: k in sheet.rows
  {
    [MetaRecord(sheet, ProvisionRecords(sheet.provisions, keys))] + RowLines(sheet.rows, order)
  }

  lemma ProvisionBack(key: string, p: Provision)
    ensures ReadProvision(ProvisionRecord(key, p)) == Some((key, p))
  {
  }

  function Restrict<K, V>(m: map<K, V>, keys: seq<K>): map<K, V> {
    map k | k in m && k in keys :: m[k]
  }

  lemma RestrictSnoc<K, V>(m: map<K, V>, keys: seq<K>, k: K)
    requires k in m
    ensures Restrict(m, keys + [k]) == Restrict(m, keys)[k := m[k]]
  {
  }

  lemma RestrictAll<K, V>(m: map<K, V>, keys: seq<K>)
    requires forall k <- m :: k in keys
    ensures Restrict(m, keys) == m
  {
  }

  lemma ReadProvisionsSnoc(items: seq<Json>, item: Json, key: string, p: Provision)
    requires ReadProvisions(items).Some? && ReadProvision(item) == Some((key, p))
    ensures ReadProvisions(items + [item]) == Some(ReadProvisions(items).value[key := p])
  {
    assert (items + [item])[..|items|] == items;
  }

  lemma {:induction false} ProvisionsBack(provisions: map<string, Provision>, order: seq<string>)
    requires forall key <- order :: key in provisions
    ensures ReadProvisions(ProvisionRecords(provisions, order)) == Some(Restrict(provisions, order))
  {
    if order == [] {
      assert Restrict(provisions, order) == map[];
    } else {
      var rest, key := order[..|order| - 1], order[|order| - 1];
      assert order == rest + [key];
      ProvisionsBack(provisions, rest);
      ProvisionBack(key, provisions[key]);
      ReadProvisionsSnoc(ProvisionRecords(provisions, rest), ProvisionRecord(key, provisions[key]), key,
        provisions[key]);
      RestrictSnoc(provisions, rest, key);
    }
  }

  lemma ReadRowsSnoc(lines: seq<Record>, line: Record, r: Row)
    requires ReadRows(lines).Some? && !IsMeta(line) && ReadRow(line) == Some(r)
    ensures ReadRows(lines + [line]) == Some(ReadRows(lines).value[KeyOf(r.seed) := r])
    ensures FindMeta(lines + [line]) == FindMeta(lines)
  {
    assert (lines + [line])[..|lines|] == lines;
  }

  lemma RowNotMeta(r: Row)
    ensures !IsMeta(RowRecord(r))
  {
    FieldsBack(r.seed, SolveRecord(r.solve), ScoresRecord(r.scores), r.meta);
  }

  lemma MetaAlone(meta: Record)
    requires IsMeta(meta)
    ensures ReadRows([meta]) == Some(map[]) && FindMeta([meta]) == Some(meta)
  {
    assert [meta][..0] == [];
  }

  lemma RowLinesSnoc(meta: Record, rows: map<RowKey, Row>, order: seq<RowKey>, k: RowKey)
    requires (forall j <- order :: j in rows) && k in rows && forall j <- order + [k] :: j in rows
    ensures [meta] + RowLines(rows, order + [k]) == ([meta] + RowLines(rows, order)) + [RowRecord(rows[k])]
  {
    assert (order + [k])[..|order|] == order;
  }

  lemma {:induction false} RowLinesBack(meta: Record, rows: map<RowKey, Row>, order: seq<RowKey>)
    requires IsMeta(meta) && (forall k <- order :: k in rows) && forall k <- rows :: KeyOf(rows[k].seed) == k
    ensures ReadRows([meta] + RowLines(rows, order)) == Some(Restrict(rows, order))
    ensures FindMeta([meta] + RowLines(rows, order)) == Some(meta)
  {
    if order == [] {
      assert [meta] + RowLines(rows, order) == [meta] && Restrict(rows, order) == map[];
      MetaAlone(meta);
    } else {
      var rest, k := order[..|order| - 1], order[|order| - 1];
      assert order == rest + [k];
      RowLinesBack(meta, rows, rest);
      RowLinesSnoc(meta, rows, rest, k);
      RowNotMeta(rows[k]);
      RowBack(rows[k]);
      ReadRowsSnoc([meta] + RowLines(rows, rest), RowRecord(rows[k]), rows[k]);
      RestrictSnoc(rows, rest, k);
    }
  }

  lemma MetaReads(sheet: Sheet, items: seq<Json>)
    requires ReadProvisions(items) == Some(sheet.provisions)
    ensures IsMeta(MetaRecord(sheet, items)) && ReadMeta(MetaRecord(sheet, items), sheet.rows) == Some(sheet)
  {
    TextsBack(sheet.metricNames);
    ArtifactsBack(sheet.artifacts);
  }

  ghost predicate Enumerates(sheet: Sheet, keys: seq<string>, order: seq<RowKey>) {
    && (forall key <- keys :: key in sheet.provisions) && (forall key <- sheet.provisions :: key in keys)
    && (forall k <- order :: k in sheet.rows) && (forall k <- sheet.rows :: k in order)
    && (forall i, j | 0 <= i < j < |keys| :: keys[i] != keys[j])
    && (forall i, j | 0 <= i < j < |order| :: order[i] != order[j])
  }

  /** What is found among the records is what is read from them. */
  lemma ReadFrom(lines: seq<Record>, meta: Record, sheet: Sheet)
    requires FindMeta(lines) == Some(meta) && ReadRows(lines) == Some(sheet.rows)
      && ReadMeta(meta, sheet.rows) == Some(sheet)
    ensures Read(lines) == Some(sheet)
  {
  }

  lemma RowsBack(sheet: Sheet, meta: Record, order: seq<RowKey>)
    requires Keyed(sheet) && IsMeta(meta)
    requires (forall k <- order :: k in sheet.rows) && forall k <- sheet.rows :: k in order
    ensures FindMeta([meta] + RowLines(sheet.rows, order)) == Some(meta)
    ensures ReadRows([meta] + RowLines(sheet.rows, order)) == Some(sheet.rows)
  {
    RowLinesBack(meta, sheet.rows, order);
    RestrictAll(sheet.rows, order);
  }

  lemma MetaBack(sheet: Sheet, keys: seq<string>)
    requires (forall key <- keys :: key in sheet.provisions) && forall key <- sheet.provisions :: key in keys
    ensures var meta := MetaRecord(sheet, ProvisionRecords(sheet.provisions, keys));
      IsMeta(meta) && ReadMeta(meta, sheet.rows) == Some(sheet)
  {
    ProvisionsBack(sheet.provisions, keys);
    RestrictAll(sheet.provisions, keys);
    MetaReads(sheet, ProvisionRecords(sheet.provisions, keys));
  }

  /** A checkpoint gives back the worksheet that was saved, in whatever order its parts were written. */
  lemma CheckpointBack(sheet: Sheet, keys: seq<string>, order: seq<RowKey>)
    requires Keyed(sheet) && Enumerates(sheet, keys, order)
    ensures Read(Lines(sheet, keys, order)) == Some(sheet)
  {
    var meta := MetaRecord(sheet, ProvisionRecords(sheet.provisions, keys));
    MetaBack(sheet, keys);
    RowsBack(sheet, meta, order);
    ReadFrom(Lines(sheet, keys, order), meta, sheet);
  }

  /** The records are those of the worksheet, in some order. */
  ghost predicate Saves(sheet: Sheet, lines: seq<Record>) {
    exists keys, order :: Enumerates(sheet, keys, order) && lines == Lines(sheet, keys, order)
  }

  lemma SavedReads(sheet: Sheet, lines: seq<Record>)
    requires Keyed(sheet) && Saves(sheet, lines)
    ensures Read(lines) == Some(sheet)
  {
    var keys, order :| Enumerates(sheet, keys, order) && lines == Lines(sheet, keys, order);
    CheckpointBack(sheet, keys, order);
  }

  // ----- Saving and loading -----

  method Save(sheet: Sheet) returns (lines: seq<Record>)
    ensures Saves(sheet, lines)
    ensures Keyed(sheet) ==> Read(lines) == Some(sheet)
  {
    var items: seq<Json>;
    ghost var keys: seq<string>, order: seq<RowKey>;
    items, keys := SaveProvisions(sheet.provisions);
    lines, order := SaveRows(sheet.rows);
    lines := [MetaRecord(sheet, items)] + lines;
    assert Enumerates(sheet, keys, order) && lines == Lines(sheet, keys, order);
    if Keyed(sheet) { SavedReads(sheet, lines); }
  }

  method SaveProvisions(provisions: map<string, Provision>) returns (items: seq<Json>, ghost keys: seq<string>)
    ensures (forall key <- keys :: key in provisions) && (forall key <- provisions :: key in keys)
    ensures forall i, j | 0 <= i < j < |keys| :: keys[i] != keys[j]
    ensures items == ProvisionRecords(provisions, keys)
  {
    items, keys := [], [];
    var todo := provisions.Keys;
    while todo != {}
      invariant todo <= provisions.Keys
      invariant forall key :: key in keys <==> key in provisions.Keys - todo
      invariant forall i, j | 0 <= i < j < |keys| :: keys[i] != keys[j]
      invariant items == ProvisionRecords(provisions, keys)
    {
      var key :| key in todo;
      assert (keys + [key])[..|keys|] == keys && key !in keys;
      keys, items := keys + [key], items + [ProvisionRecord(key, provisions[key])];
      todo := todo - {key};
    }
  }

  method SaveRows(rows: map<RowKey, Row>) returns (lines: seq<Record>, ghost order: seq<RowKey>)
    ensures (forall k <- order :: k in rows) && (forall k <- rows :: k in order) && lines == RowLines(rows, order)
    ensures forall i, j | 0 <= i < j < |order| :: order[i] != order[j]
  {
    lines, order := [], [];
    var todo := rows.Keys;
    while todo != {}
      invariant todo <= rows.Keys
      invariant forall k :: k in order <==> k in rows.Keys - todo
      invariant forall i, j | 0 <= i < j < |order| :: order[i] != order[j]
      invariant lines == RowLines(rows, order)
    {
      var k :| k in todo;
      assert (order + [k])[..|order|] == order && k !in order;
      order, lines := order + [k], lines + [RowRecord(rows[k])];
      todo := todo - {k};
    }
  }

  method Load(lines: seq<Record>) returns (sheet: Option<Sheet>)
    ensures sheet == Read(lines)
  {
    var meta: Option<Record>, rows := None, map[];
    for i := 0 to |lines|
      invariant meta == FindMeta(lines[..i]) && ReadRows(lines[..i]) == Some(rows)
    {
      assert lines[..i + 1][..i] == lines[..i];
      if IsMeta(lines[i]) {
        meta := Some(lines[i]);
      } else {
        var row := ReadRow(lines[i]);
        if row.None? {
          Unreadable(lines, i + 1);
          return None;
        }
        rows := rows[KeyOf(row.value.seed) := row.value];
      }
    }
    assert lines[..|lines|] == lines;
    sheet := if meta.None? then None else ReadMeta(meta.value, rows);
  }

  /** One unreadable row is enough. */
  lemma {:induction false} Unreadable(lines: seq<Record>, n: nat)
    requires n <= |lines| && ReadRows(lines[..n]).None?
    ensures ReadRows(lines).None?
    decreases |lines|
  {
    if n < |lines| {
      assert lines[..|lines| - 1][..n] == lines[..n];
      Unreadable(lines[..|lines| - 1], n);
    } else {
      assert lines[..n] == lines;
    }
  }

  // ----- A row without a provision -----

  /** A worksheet with one unanswered row, whose provision is missing. */
  function Orphaned(seed: Seed): Sheet {
    Sheet("", "", "", "", [], [], map[KeyOf(seed) := Row(seed, NEW_SOLVE, map[], map[])], map[])
  }

  /** Such a worksheet counts as complete though its row has no answer, and a checkpoint can hold it. */
  lemma OrphanIsOverlooked(seed: Seed)
    ensures Complete(Orphaned(seed)) && !AllOk(Orphaned(seed))
    ensures Saves(Orphaned(seed), Lines(Orphaned(seed), [], [KeyOf(seed)]))
    ensures Read(Lines(Orphaned(seed), [], [KeyOf(seed)])) == Some(Orphaned(seed))
  {
    var sheet := Orphaned(seed);
    assert KeyOf(seed) in sheet.rows;
    assert PendingProvisions(sheet) == {} && NeedingSolve(sheet) == {} && NeedingFill(sheet) == {};
    assert Enumerates(sheet, [], [KeyOf(seed)]);
    CheckpointBack(sheet, [], [KeyOf(seed)]);
  }
}
