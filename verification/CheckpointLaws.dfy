/** What the records of a checkpoint look like, and what is read from records written elsewhere. */
module CheckpointLaws {
  import opened Wrappers
  import opened Worksheets
  import opened Checkpoints

  // ----- Values -----

  predicate StateIs(j: Json, s: CellState) {
    && (s.Pending? ==> j == Str("pending")) && (s.Ok? ==> j == Str("ok")) && (s.Failed? ==> j == Str("failed"))
  }

  predicate TextOrNull(j: Json, o: Option<string>) { if o.Some? then j == Str(o.value) else j == Null }

  predicate NumberOrNull(j: Json, o: Option<real>) { if o.Some? then j == Num(o.value) else j == Null }

  predicate TextList(j: Json, ss: seq<string>) {
    j.Arr? && |j.items| == |ss| && forall i | 0 <= i < |ss| :: j.items[i] == Str(ss[i])
  }

  predicate TextFields(j: Json, m: map<string, string>) {
    j.Obj? && j.fields.Keys == m.Keys && forall k <- m :: j.fields[k] == Str(m[k])
  }

  // ----- What is written -----

  predicate ResultIs(j: Json, r: MetricResult) {
    && j.Obj? && j.fields.Keys == {"name", "kind", "score", "judgement", "value", "unit"}
    && j.fields["name"] == Str(r.name) && j.fields["kind"] == Str(r.kind) && NumberOrNull(j.fields["score"], r.score)
    && j.fields["judgement"] == Str(r.judgement) && NumberOrNull(j.fields["value"], r.value)
    && TextOrNull(j.fields["unit"], r.unit)
  }

  predicate ScoreIs(j: Json, c: ScoreCell) {
    && j.Obj? && j.fields.Keys == {"state", "result", "error"}
    && StateIs(j.fields["state"], c.state) && TextOrNull(j.fields["error"], c.error)
    && if c.result.Some? then ResultIs(j.fields["result"], c.result.value) else j.fields["result"] == Null
  }

  predicate SolveIs(j: Json, c: SolveCell) {
    && j.Obj? && j.fields.Keys == {"state", "response", "retrieved", "citations", "observations", "error"}
    && StateIs(j.fields["state"], c.state) && TextOrNull(j.fields["response"], c.answer.response)
    && TextList(j.fields["retrieved"], c.answer.retrieved) && j.fields["citations"] == Arr(c.answer.citations)
    && j.fields["observations"] == Obj(c.answer.observations) && TextOrNull(j.fields["error"], c.error)
  }

  predicate SeedIs(f: Record, s: Seed)
    requires {"arm_id", "arm_key", "corpus", "case_id", "run_id", "query", "expected_behavior", "ground_truth",
              "dimensions", "evidence_sources", "candidate_sources"} <= f.Keys
  {
    && f["arm_id"] == Str(s.armId) && f["arm_key"] == Str(s.armKey) && f["corpus"] == Str(s.corpus)
    && f["case_id"] == Str(s.caseId) && f["run_id"] == Str(s.runId) && f["query"] == Str(s.query)
    && f["expected_behavior"] == Str(s.expectedBehavior) && TextOrNull(f["ground_truth"], s.groundTruth)
    && TextFields(f["dimensions"], s.dimensions) && TextList(f["evidence_sources"], s.evidenceSources)
    && TextList(f["candidate_sources"], s.candidateSources)
  }

  predicate RowIs(f: Record, r: Row) {
    && f.Keys == {"kind", "arm_id", "arm_key", "corpus", "case_id", "run_id", "query", "expected_behavior",
                  "ground_truth", "dimensions", "evidence_sources", "candidate_sources", "solve", "scores", "meta"}
    && f["kind"] == Str("row") && SeedIs(f, r.seed) && SolveIs(f["solve"], r.solve) && f["meta"] == Obj(r.meta)
    && f["scores"].Obj? && f["scores"].fields.Keys == r.scores.Keys
    && forall name <- r.scores :: ScoreIs(f["scores"].fields[name], r.scores[name])
  }

  predicate ProvisionIs(j: Json, key: string, p: Provision) {
    && j.Obj? && j.fields.Keys == {"key", "state", "subject_id", "error"}
    && j.fields["key"] == Str(key) && StateIs(j.fields["state"], p.state)
    && TextOrNull(j.fields["subject_id"], p.subject) && TextOrNull(j.fields["error"], p.error)
  }

  predicate ArtifactIs(j: Json, a: Artifact) {
    j.Obj? && j.fields.Keys == {"name", "path"} && j.fields["name"] == Str(a.name) && j.fields["path"] == Str(a.path)
  }

  predicate MetaIs(f: Record, sheet: Sheet, keys: seq<string>) {
    && f.Keys == {"kind", "experiment", "experiment_hash", "run_id", "created_at", "artifacts", "metric_names",
                  "provisions"}
    && f["kind"] == Str("meta") && f["experiment"] == Str(sheet.experiment)
    && f["experiment_hash"] == Str(sheet.hash) && f["run_id"] == Str(sheet.runId)
    && f["created_at"] == Str(sheet.createdAt) && TextList(f["metric_names"], sheet.metricNames)
    && f["artifacts"].Arr? && |f["artifacts"].items| == |sheet.artifacts|
    && (forall i | 0 <= i < |sheet.artifacts| :: ArtifactIs(f["artifacts"].items[i], sheet.artifacts[i]))
    && f["provisions"].Arr? && |f["provisions"].items| == |keys|
    && forall i | 0 <= i < |keys| ::
         keys[i] in sheet.provisions && ProvisionIs(f["provisions"].items[i], keys[i], sheet.provisions[keys[i]])
  }

  lemma ResultWritten(r: MetricResult)
    ensures ResultIs(ResultRecord(r), r)
  {
  }

  lemma ScoreWritten(c: ScoreCell)
    ensures ScoreIs(ScoreRecord(c), c)
  {
    if c.result.Some? { ResultWritten(c.result.value); }
  }

  lemma SolveWritten(c: SolveCell)
    ensures SolveIs(SolveRecord(c), c)
  {
  }

  lemma SeedWritten(s: Seed)
    ensures SeedFields(s).Keys == {"arm_id", "arm_key", "corpus", "case_id", "run_id", "query", "expected_behavior",
                                   "ground_truth", "dimensions", "evidence_sources", "candidate_sources"}
    ensures SeedIs(SeedFields(s), s)
  {
  }

  /** What stands beside the seed in a row's record. */
  predicate CellsAre(f: Record, solve: Json, scores: Json, meta: map<string, Json>)
    requires {"kind", "solve", "scores", "meta"} <= f.Keys
  {
    f["kind"] == Str("row") && f["solve"] == solve && f["scores"] == scores && f["meta"] == Obj(meta)
  }

  lemma SeedKept(f: Record, s: Seed, more: Record)
    requires f.Keys == {"arm_id", "arm_key", "corpus", "case_id", "run_id", "query", "expected_behavior",
                        "ground_truth", "dimensions", "evidence_sources", "candidate_sources"} && SeedIs(f, s)
    requires more.Keys == {"kind", "solve", "scores", "meta"}
    ensures (f + more).Keys == f.Keys + more.Keys && SeedIs(f + more, s)
    ensures forall name <- more :: (f + more)[name] == more[name]
  {
  }

  lemma CellsWritten(solve: Json, scores: Json, meta: map<string, Json>, more: Record)
    requires more == map["kind" := Str("row"), "solve" := solve, "scores" := scores, "meta" := Obj(meta)]
    ensures more.Keys == {"kind", "solve", "scores", "meta"} && CellsAre(more, solve, scores, meta)
  {
  }

  lemma FieldsMerged(f: Record, seed: Seed, solve: Json, scores: Json, meta: map<string, Json>, more: Record)
    requires f.Keys == {"arm_id", "arm_key", "corpus", "case_id", "run_id", "query", "expected_behavior",
                        "ground_truth", "dimensions", "evidence_sources", "candidate_sources"} && SeedIs(f, seed)
    requires more.Keys == {"kind", "solve", "scores", "meta"} && CellsAre(more, solve, scores, meta)
    ensures (f + more).Keys
         == {"kind", "arm_id", "arm_key", "corpus", "case_id", "run_id", "query", "expected_behavior",
             "ground_truth", "dimensions", "evidence_sources", "candidate_sources", "solve", "scores", "meta"}
    ensures SeedIs(f + more, seed) && CellsAre(f + more, solve, scores, meta)
  {
    SeedKept(f, seed, more);
  }

  lemma FieldsWritten(seed: Seed, solve: Json, scores: Json, meta: map<string, Json>)
    ensures var f := RowFields(seed, solve, scores, meta);
      && f.Keys == {"kind", "arm_id", "arm_key", "corpus", "case_id", "run_id", "query", "expected_behavior",
                    "ground_truth", "dimensions", "evidence_sources", "candidate_sources", "solve", "scores", "meta"}
      && SeedIs(f, seed) && CellsAre(f, solve, scores, meta)
  {
    var more := map["kind" := Str("row"), "solve" := solve, "scores" := scores, "meta" := Obj(meta)];
    SeedWritten(seed);
    CellsWritten(solve, scores, meta, more);
    FieldsMerged(SeedFields(seed), seed, solve, scores, meta, more);
  }

  lemma ScoresWritten(scores: map<string, ScoreCell>)
    ensures var j := ScoresRecord(scores);
      j.Obj? && j.fields.Keys == scores.Keys && forall name <- scores :: ScoreIs(j.fields[name], scores[name])
  {
    forall name <- scores ensures ScoreIs(ScoresRecord(scores).fields[name], scores[name]) {
      ScoreWritten(scores[name]);
    }
  }

  /** A row is one record of its kind, with each of its cells. */
  lemma RowWritten(r: Row)
    ensures RowIs(RowRecord(r), r)
  {
    var solve, scores := SolveRecord(r.solve), ScoresRecord(r.scores);
    FieldsWritten(r.seed, solve, scores, r.meta);
    SolveWritten(r.solve);
    ScoresWritten(r.scores);
    RowPutTogether(RowRecord(r), r, solve, scores);
  }

  lemma RowPutTogether(f: Record, r: Row, solve: Json, scores: Json)
    requires f.Keys == {"kind", "arm_id", "arm_key", "corpus", "case_id", "run_id", "query", "expected_behavior",
                        "ground_truth", "dimensions", "evidence_sources", "candidate_sources", "solve", "scores",
                        "meta"}
    requires SeedIs(f, r.seed) && CellsAre(f, solve, scores, r.meta) && SolveIs(solve, r.solve)
    requires scores.Obj? && scores.fields.Keys == r.scores.Keys
    requires forall name <- r.scores :: ScoreIs(scores.fields[name], r.scores[name])
    ensures RowIs(f, r)
  {
  }

  lemma ProvisionWritten(key: string, p: Provision)
    ensures ProvisionIs(ProvisionRecord(key, p), key, p)
  {
  }

  lemma ProvisionsSnoc(provisions: map<string, Provision>, keys: seq<string>)
    requires keys != [] && forall key <- keys :: key in provisions
    ensures ProvisionRecords(provisions, keys)
         == ProvisionRecords(provisions, keys[..|keys| - 1])
            + [ProvisionRecord(keys[|keys| - 1], provisions[keys[|keys| - 1]])]
  {
  }

  lemma {:induction false} ProvisionsWritten(provisions: map<string, Provision>, keys: seq<string>, i: nat)
    requires (forall key <- keys :: key in provisions) && i < |keys|
    ensures |ProvisionRecords(provisions, keys)| == |keys|
    ensures ProvisionRecords(provisions, keys)[i] == ProvisionRecord(keys[i], provisions[keys[i]])
    decreases |keys|
  {
    var n := |keys| - 1;
    ProvisionsSnoc(provisions, keys);
    if n == 0 {
    } else {
      ProvisionsWritten(provisions, keys[..n], if i < n then i else 0);
    }
  }

  lemma ProvisionsAre(provisions: map<string, Provision>, keys: seq<string>)
    requires forall key <- keys :: key in provisions
    ensures |ProvisionRecords(provisions, keys)| == |keys|
    ensures forall i | 0 <= i < |keys| ::
      ProvisionIs(ProvisionRecords(provisions, keys)[i], keys[i], provisions[keys[i]])
  {
    if keys != [] { ProvisionsWritten(provisions, keys, 0); }
    forall i | 0 <= i < |keys|
      ensures ProvisionIs(ProvisionRecords(provisions, keys)[i], keys[i], provisions[keys[i]])
    {
      ProvisionsWritten(provisions, keys, i);
      ProvisionWritten(keys[i], provisions[keys[i]]);
    }
  }

  lemma ArtifactsWritten(artifacts: seq<Artifact>)
    ensures var j := ArtifactRecords(artifacts);
      && j.Arr? && |j.items| == |artifacts|
      && forall i | 0 <= i < |artifacts| :: ArtifactIs(j.items[i], artifacts[i])
  {
  }

  lemma MetaWritten(sheet: Sheet, keys: seq<string>)
    requires forall key <- keys :: key in sheet.provisions
    ensures MetaIs(MetaRecord(sheet, ProvisionRecords(sheet.provisions, keys)), sheet, keys)
  {
    ProvisionsAre(sheet.provisions, keys);
    ArtifactsWritten(sheet.artifacts);
    MetaFields(sheet, ProvisionRecords(sheet.provisions, keys), keys);
  }

  lemma MetaFields(sheet: Sheet, items: seq<Json>, keys: seq<string>)
    requires |items| == |keys|
    requires forall i | 0 <= i < |keys| ::
      keys[i] in sheet.provisions && ProvisionIs(items[i], keys[i], sheet.provisions[keys[i]])
    requires ArtifactRecords(sheet.artifacts).Arr? && |ArtifactRecords(sheet.artifacts).items| == |sheet.artifacts|
    requires forall i | 0 <= i < |sheet.artifacts| ::
      ArtifactIs(ArtifactRecords(sheet.artifacts).items[i], sheet.artifacts[i])
    ensures MetaIs(MetaRecord(sheet, items), sheet, keys)
  {
    var f := MetaRecord(sheet, items);
    assert f["artifacts"] == ArtifactRecords(sheet.artifacts) && f["provisions"] == Arr(items);
  }

  lemma LinesSnoc(rows: map<RowKey, Row>, order: seq<RowKey>)
    requires order != [] && forall k <- order :: k in rows
    ensures RowLines(rows, order)
         == RowLines(rows, order[..|order| - 1]) + [RowRecord(rows[order[|order| - 1]])]
  {
  }

  lemma {:induction false} LineWritten(rows: map<RowKey, Row>, order: seq<RowKey>, i: nat)
    requires (forall k <- order :: k in rows) && i < |order|
    ensures RowLines(rows, order)[i] == RowRecord(rows[order[i]])
    decreases |order|
  {
    var n := |order| - 1;
    LinesSnoc(rows, order);
    if i == n {
    } else {
      LineWritten(rows, order[..n], i);
    }
  }

  /** Each key once. */
  ghost predicate Lists<T(!new)>(order: seq<T>, keys: set<T>) {
    && (forall k :: k in order <==> k in keys) && forall i, j | 0 <= i < j < |order| :: order[i] != order[j]
  }

  /** A checkpoint is one meta record, with each provision once, and then one record for each row. */
  lemma SavedRecords(sheet: Sheet, lines: seq<Record>) returns (keys: seq<string>, order: seq<RowKey>)
    requires Saves(sheet, lines)
    ensures Lists(keys, sheet.provisions.Keys) && Lists(order, sheet.rows.Keys)
    ensures |lines| == 1 + |order| && MetaIs(lines[0], sheet, keys)
    ensures forall i | 0 <= i < |order| :: order[i] in sheet.rows && RowIs(lines[i + 1], sheet.rows[order[i]])
  {
    keys, order := SomeOrder(sheet, lines);
    MetaWritten(sheet, keys);
    forall i | 0 <= i < |order| ensures order[i] in sheet.rows && RowIs(lines[i + 1], sheet.rows[order[i]]) {
      LineWritten(sheet.rows, order, i);
      RowWritten(sheet.rows[order[i]]);
    }
  }

  lemma SomeOrder(sheet: Sheet, lines: seq<Record>) returns (keys: seq<string>, order: seq<RowKey>)
    requires Saves(sheet, lines)
    ensures Lists(keys, sheet.provisions.Keys) && Lists(order, sheet.rows.Keys)
    ensures |lines| == 1 + |order| && lines[0] == MetaRecord(sheet, ProvisionRecords(sheet.provisions, keys))
    ensures lines[1..] == RowLines(sheet.rows, order)
  {
    keys, order :| Enumerates(sheet, keys, order) && lines == Lines(sheet, keys, order);
  }

  // ----- What is read -----

  /** A field that must be there, and one with a default. */
  predicate Needed(f: Record, name: string, v: string) { name in f && f[name] == Str(v) }

  predicate Defaulting(f: Record, name: string, other: string, v: string) {
    if name in f then f[name] == Str(v) else v == other
  }

  /** A field that may be null or missing, which reads as nothing. */
  predicate Optionally(f: Record, name: string, v: Option<string>) {
    if name in f then TextOrNull(f[name], v) else v.None?
  }

  predicate NumberOptionally(f: Record, name: string, v: Option<real>) {
    if name in f then NumberOrNull(f[name], v) else v.None?
  }

  predicate ListOptionally(f: Record, name: string, v: seq<string>) {
    if name in f && f[name] != Null then TextList(f[name], v) else v == []
  }

  predicate FieldsOptionally(f: Record, name: string, v: map<string, string>) {
    if name in f && f[name] != Null then TextFields(f[name], v) else v == map[]
  }

  predicate AnyOptionally(f: Record, name: string, v: map<string, Json>) {
    if name in f && f[name] != Null then f[name] == Obj(v) else v == map[]
  }

  predicate ItemsOptionally(f: Record, name: string, v: seq<Json>) {
    if name in f && f[name] != Null then f[name] == Arr(v) else v == []
  }

  predicate StateNeeded(f: Record, s: CellState) { "state" in f && StateIs(f["state"], s) }

  lemma TextsRead(j: Json, v: seq<string>)
    requires Texts(j) == Some(v)
    ensures if j == Null then v == [] else TextList(j, v)
  {
    if j.Arr? {
      forall i | 0 <= i < |v| ensures j.items[i] == Str(v[i]) {
        assert j.items[i] in j.items && j.items[i].Str?;
      }
    }
  }

  lemma ListRead(f: Record, name: string, v: seq<string>)
    ensures Texts(Get(f, name)) == Some(v) ==> ListOptionally(f, name, v)
  {
    if Texts(Get(f, name)) == Some(v) { TextsRead(Get(f, name), v); }
  }

  /** A seed needs what identifies it, its query, and nothing more. */
  lemma SeedReads(f: Record, s: Seed)
    ensures ReadSeed(f) == Some(s) ==>
      && Needed(f, "arm_id", s.armId) && Needed(f, "arm_key", s.armKey) && Defaulting(f, "corpus", "", s.corpus)
      && Needed(f, "case_id", s.caseId) && Defaulting(f, "run_id", "", s.runId) && Needed(f, "query", s.query)
      && Defaulting(f, "expected_behavior", "answer", s.expectedBehavior)
      && Optionally(f, "ground_truth", s.groundTruth) && FieldsOptionally(f, "dimensions", s.dimensions)
      && ListOptionally(f, "evidence_sources", s.evidenceSources)
      && ListOptionally(f, "candidate_sources", s.candidateSources)
  {
    ListRead(f, "evidence_sources", s.evidenceSources);
    ListRead(f, "candidate_sources", s.candidateSources);
  }

  /** A metric result needs its name only. */
  lemma ResultReads(j: Json, r: MetricResult)
    ensures ReadResult(j) == Some(r) ==>
      && j.Obj? && Needed(j.fields, "name", r.name) && Defaulting(j.fields, "kind", "score", r.kind)
      && NumberOptionally(j.fields, "score", r.score) && Defaulting(j.fields, "judgement", "", r.judgement)
      && NumberOptionally(j.fields, "value", r.value) && Optionally(j.fields, "unit", r.unit)
  {
  }

  lemma SolveReads(j: Json, c: SolveCell)
    ensures ReadSolve(j) == Some(c) ==>
      && j.Obj? && StateNeeded(j.fields, c.state) && Optionally(j.fields, "response", c.answer.response)
      && ListOptionally(j.fields, "retrieved", c.answer.retrieved)
      && ItemsOptionally(j.fields, "citations", c.answer.citations)
      && AnyOptionally(j.fields, "observations", c.answer.observations) && Optionally(j.fields, "error", c.error)
  {
    if j.Obj? { ListRead(j.fields, "retrieved", c.answer.retrieved); }
  }

  /** A score cell without a result, or with a null or empty one, has none. */
  lemma ScoreReads(j: Json, c: ScoreCell)
    ensures ReadScore(j) == Some(c) ==>
      && j.Obj? && StateNeeded(j.fields, c.state) && Optionally(j.fields, "error", c.error)
      && (c.result.None? <==>
            "result" !in j.fields || j.fields["result"] == Null || j.fields["result"] == Obj(map[]))
      && (c.result.Some? ==> ReadResult(j.fields["result"]) == c.result)
  {
  }

  /** A row needs the fields that identify it, its query and its answer cell; each score it has is read. */
  lemma RowReads(f: Record, r: Row)
    ensures ReadRow(f) == Some(r) ==>
      && ReadSeed(f) == Some(r.seed) && "solve" in f && ReadSolve(f["solve"]) == Some(r.solve)
      && AnyOptionally(f, "meta", r.meta)
      && (if "scores" in f && f["scores"] != Null
          then f["scores"].Obj? && r.scores.Keys == f["scores"].fields.Keys
               && forall name <- r.scores :: ReadScore(f["scores"].fields[name]) == Some(r.scores[name])
          else r.scores == map[])
  {
  }

  /** A record with another kind than meta, or with none, is taken for a row. */
  predicate IsRowLine(f: Record) { "kind" !in f || f["kind"] != Str("meta") }

  /** A record that says nothing of rows, one that cannot be read, or one that puts a value under a key. */
  datatype Entry<K, V> = Skipped | Bad | Put(key: K, value: V)

  function Entered<K, V>(entries: seq<Entry<K, V>>): Option<map<K, V>> {
    if entries == [] then Some(map[])
    else
      var before, last := Entered(entries[..|entries| - 1]), entries[|entries| - 1];
      if before.None? || last.Skipped? then before
      else if last.Bad? then None else Some(before.value[last.key := last.value])
  }

  /** One unreadable entry is enough to refuse all. */
  lemma {:induction false} EnteredRefused<K, V>(entries: seq<Entry<K, V>>)
    ensures Entered(entries).None? <==> Bad in entries
  {
    if entries == [] {
    } else {
      EnteredRefused(entries[..|entries| - 1]);
      assert entries == entries[..|entries| - 1] + [entries[|entries| - 1]];
    }
  }

  /** The last value put under a key stands, */
  lemma {:induction false} EnteredStands<K, V>(entries: seq<Entry<K, V>>, i: nat)
    requires Entered(entries).Some? && i < |entries| && entries[i].Put?
    requires forall j | i < j < |entries| :: entries[j].Put? ==> entries[j].key != entries[i].key
    ensures entries[i].key in Entered(entries).value && Entered(entries).value[entries[i].key] == entries[i].value
    decreases |entries|
  {
    if i == |entries| - 1 {
    } else {
      EnteredStands(entries[..|entries| - 1], i);
    }
  }

  /** and each that is there was put. */
  lemma {:induction false} EnteredWasPut<K, V>(entries: seq<Entry<K, V>>, key: K) returns (i: nat)
    requires Entered(entries).Some? && key in Entered(entries).value
    ensures i < |entries| && entries[i] == Put(key, Entered(entries).value[key])
    decreases |entries|
  {
    var n := |entries| - 1;
    if entries[n].Put? && entries[n].key == key {
      i := n;
    } else {
      i := EnteredWasPut(entries[..n], key);
    }
  }

  function RowEntry(f: Record): Entry<RowKey, Row> {
    if !IsRowLine(f) then Skipped
    else
      match ReadRow(f)
      case None => Bad
      case Some(r) => Put(RowKey(r.seed.armId, r.seed.corpus, r.seed.caseId), r)
  }

  function RowEntries(lines: seq<Record>): seq<Entry<RowKey, Row>> {
    seq(|lines|, i requires 0 <= i < |lines| => RowEntry(lines[i]))
  }

  lemma RowStep(lines: seq<Record>)
    requires lines != []
    ensures var before, last := ReadRows(lines[..|lines| - 1]), RowEntry(lines[|lines| - 1]);
      ReadRows(lines)
      == if before.None? || last.Skipped? then before
         else if last.Bad? then None else Some(before.value[last.key := last.value])
  {
  }

  /** The rows of a checkpoint are what its row records put, in turn. */
  lemma {:induction false} RowsAreEntered(lines: seq<Record>)
    ensures ReadRows(lines) == Entered(RowEntries(lines))
  {
    if lines == [] {
    } else {
      var n := |lines| - 1;
      RowStep(lines);
      RowsAreEntered(lines[..n]);
      assert RowEntries(lines)[..n] == RowEntries(lines[..n]);
    }
  }

  /** The last meta record stands. */
  lemma {:induction false} MetaFound(lines: seq<Record>)
    ensures FindMeta(lines).None? <==> forall i | 0 <= i < |lines| :: IsRowLine(lines[i])
    ensures forall i | 0 <= i < |lines| && !IsRowLine(lines[i]) && forall j | i < j < |lines| :: IsRowLine(lines[j]) ::
      FindMeta(lines) == Some(lines[i])
  {
    if lines == [] {
    } else {
      var n := |lines| - 1;
      MetaFound(lines[..n]);
      assert forall i | 0 <= i < n :: lines[..n][i] == lines[i];
    }
  }

  function ProvisionEntry(j: Json): Entry<string, Provision> {
    match ReadProvision(j)
    case None => Bad
    case Some((key, p)) => Put(key, p)
  }

  function ProvisionEntries(items: seq<Json>): seq<Entry<string, Provision>> {
    seq(|items|, i requires 0 <= i < |items| => ProvisionEntry(items[i]))
  }

  /** Its provisions are what the items of its meta record put, in turn. */
  lemma {:induction false} ProvisionsAreEntered(items: seq<Json>)
    ensures ReadProvisions(items) == Entered(ProvisionEntries(items))
  {
    if items == [] {
    } else {
      var n := |items| - 1;
      ProvisionsAreEntered(items[..n]);
      assert ProvisionEntries(items)[..n] == ProvisionEntries(items[..n]);
      assert ProvisionEntries(items)[n] == ProvisionEntry(items[n]);
    }
  }

  /** A provision needs its key and its state. */
  lemma ProvisionReads(j: Json, key: string, p: Provision)
    ensures ReadProvision(j) == Some((key, p)) ==>
      && j.Obj? && Needed(j.fields, "key", key) && StateNeeded(j.fields, p.state)
      && Optionally(j.fields, "subject_id", p.subject) && Optionally(j.fields, "error", p.error)
  {
  }

  /** A checkpoint needs a meta record with the experiment, its hash and the metric names; provisions and artifacts may
      be left out. */
  lemma MetaReads(lines: seq<Record>, sheet: Sheet)
    requires Read(lines) == Some(sheet)
    ensures FindMeta(lines).Some? && ReadRows(lines) == Some(sheet.rows)
    ensures var f := FindMeta(lines).value;
      && Needed(f, "experiment", sheet.experiment) && Needed(f, "experiment_hash", sheet.hash)
      && "metric_names" in f && TextList(f["metric_names"], sheet.metricNames)
      && Defaulting(f, "run_id", "", sheet.runId) && Defaulting(f, "created_at", "", sheet.createdAt)
      && (if "provisions" in f
          then f["provisions"].Arr? && ReadProvisions(f["provisions"].items) == Some(sheet.provisions)
          else sheet.provisions == map[])
      && (if "artifacts" in f
          then f["artifacts"].Arr? && |f["artifacts"].items| == |sheet.artifacts|
               && forall i | 0 <= i < |sheet.artifacts| :: ArtifactIs(f["artifacts"].items[i], sheet.artifacts[i])
          else sheet.artifacts == [])
  {
    TextsRead(FindMeta(lines).value["metric_names"], sheet.metricNames);
    if "artifacts" in FindMeta(lines).value {
      ArtifactsRead(FindMeta(lines).value["artifacts"], sheet.artifacts);
    }
  }

  lemma ArtifactsRead(j: Json, artifacts: seq<Artifact>)
    requires ReadArtifacts(j) == Some(artifacts)
    ensures j.Arr? && |j.items| == |artifacts|
    ensures forall i | 0 <= i < |artifacts| :: ArtifactIs(j.items[i], artifacts[i])
  {
    forall i | 0 <= i < |artifacts| ensures ArtifactIs(j.items[i], artifacts[i]) {
      assert ReadArtifact(j.items[i]) == Some(artifacts[i]);
    }
  }
}
