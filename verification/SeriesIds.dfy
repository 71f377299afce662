/** Printing a metric series as one id, and parsing ids and metric references back. */
module SeriesIds {
  import opened Wrappers
  import opened Strings

  type Labels = map<string, string>

  /** A name with its labels, and for a reference the statistic asked for. */
  datatype Series = Series(name: string, labels: Labels)
  datatype Ref = Ref(name: string, labels: Labels, stat: Option<string>)
  datatype SplitRef = NoStat | WithStat(id: string, stat: string)

  predicate IsSpace(c: char) {
    || ('\t' <= c <= '\r') || ('\U{1C}' <= c <= '\U{20}') || c == '\U{85}' || c == '\U{A0}'
    || c == '\U{1680}' || ('\U{2000}' <= c <= '\U{200A}') || c == '\U{2028}' || c == '\U{2029}'
    || c == '\U{202F}' || c == '\U{205F}' || c == '\U{3000}'
  }

  predicate IsQuote(c: char) { c == '\"' }

  // ----- Printing -----

  function Quoted(v: string): string { ['\"'] + v + ['\"'] }

  function Item(k: string, v: string): string { k + ['='] + Quoted(v) }

  function Items(keys: seq<string>, labels: Labels): (items: seq<string>)
    requires forall k <- keys :: k in labels
    ensures |items| == |keys|
  {
    if keys == [] then [] else Items(keys[..|keys| - 1], labels) + [Item(keys[|keys| - 1], labels[keys[|keys| - 1]])]
  }

  ghost function SeriesId(name: string, labels: Labels): string {
    if labels == map[] then name else TextOf(name, Printed(labels), "")
  }

  /** The labels between the braces, in order of their keys. */
  ghost function Printed(labels: Labels): string {
    Join(Items(Sorted(labels.Keys), labels), ',')
  }

  function TextOf(name: string, inner: string, tail: string): string {
    name + ['{'] + (inner + ['}'] + tail)
  }

  // ----- Parsing -----

  /** Enter one `key="value"` piece; blank pieces are skipped and later ones win. */
  function AddPiece(labels: Labels, piece: string): Labels {
    var p := Strip(piece, IsSpace);
    if p == "" then labels
    else labels[Strip(Before(p, '='), IsSpace) := Strip(Strip(Behind(p, '='), IsSpace), IsQuote)]
  }

  function ReadLabels(pieces: seq<string>): Labels {
    if pieces == [] then map[] else AddPiece(ReadLabels(pieces[..|pieces| - 1]), pieces[|pieces| - 1])
  }

  function Inner(s: string): string { Before(Behind(s, '{'), '}') }

  function SplitSeries(sid: string): Series {
    if Find(sid, '{') == |sid| then Series(sid, map[])
    else Series(Before(sid, '{'), ReadLabels(Split(Inner(sid), ',')))
  }

  function TailStat(tail: string): Option<string> {
    if tail != "" && tail[0] == '.' then Some(tail[1..]) else None
  }

  function ParseRef(ref: string): Ref {
    if Find(ref, '{') < |ref| then
      Ref(Before(ref, '{'), ReadLabels(Split(Inner(ref), ',')), TailStat(Behind(Behind(ref, '{'), '}')))
    else
      var dot := FindLast(ref, '.');
      if dot < 0 then Ref(ref, map[], None) else Ref(ref[..dot], map[], Some(ref[dot + 1..]))
  }

  function SplitOff(ref: string): SplitRef {
    var dot := FindLast(ref, '.');
    if dot <= 0 || dot + 1 == |ref| then NoStat else WithStat(ref[..dot], ref[dot + 1..])
  }

  method ParseLabels(inner: string) returns (labels: Labels)
    ensures labels == ReadLabels(Split(inner, ','))
  {
    var pieces := Split(inner, ',');
    labels := map[];
    for i := 0 to |pieces|
      invariant labels == ReadLabels(pieces[..i])
    {
      assert pieces[..i + 1][..i] == pieces[..i];
      var p := Strip(pieces[i], IsSpace);
      if p != "" {
        var key, value := Before(p, '='), Behind(p, '=');
        labels := labels[Strip(key, IsSpace) := Strip(Strip(value, IsSpace), IsQuote)];
      }
    }
    assert pieces[..|pieces|] == pieces;
  }

  // ----- What can come back -----

  predicate CleanKey(k: string) {
    ',' !in k && '}' !in k && '=' !in k && Trimmed(k, IsSpace)
  }

  predicate CleanValue(v: string) {
    ',' !in v && '}' !in v && Trimmed(v, IsQuote)
  }

  predicate CleanLabels(labels: Labels) {
    forall k <- labels :: CleanKey(k) && CleanValue(labels[k])
  }

  predicate Clean(s: Series) {
    '{' !in s.name && CleanLabels(s.labels)
  }

  lemma FindNone(s: string, c: char)
    ensures Find(s, c) == |s| <==> c !in s
    ensures c !in Before(s, c) && (forall d <- Before(s, c) :: d in s) && (forall d <- Behind(s, c) :: d in s)
  {
  }

  lemma PieceIsClean(labels: Labels, piece: string)
    requires CleanLabels(labels) && ',' !in piece && '}' !in piece
    ensures CleanLabels(AddPiece(labels, piece))
  {
    var p := Strip(piece, IsSpace);
    FindNone(p, '=');
    var k, v := Strip(Before(p, '='), IsSpace), Strip(Strip(Behind(p, '='), IsSpace), IsQuote);
    assert CleanKey(k) && CleanValue(v);
  }

  lemma {:induction false} ReadIsClean(pieces: seq<string>)
    requires forall p <- pieces :: ',' !in p && '}' !in p
    ensures CleanLabels(ReadLabels(pieces))
  {
    if pieces == [] {
    } else {
      ReadIsClean(pieces[..|pieces| - 1]);
      assert pieces[|pieces| - 1] in pieces;
      PieceIsClean(ReadLabels(pieces[..|pieces| - 1]), pieces[|pieces| - 1]);
    }
  }

  lemma InnerIsClean(s: string)
    ensures CleanLabels(ReadLabels(Split(Inner(s), ',')))
  {
    FindNone(Behind(s, '{'), '}');
    ReadIsClean(Split(Inner(s), ','));
  }

  /** Whatever is parsed is clean. */
  lemma ParsedIsClean(s: string)
    ensures Clean(SplitSeries(s)) && CleanLabels(ParseRef(s).labels) && '{' !in ParseRef(s).name
  {
    FindNone(s, '{');
    InnerIsClean(s);
  }

  // ----- Reading back what was printed -----

  lemma Unquoted(v: string)
    requires Trimmed(v, IsQuote)
    ensures Strip(Quoted(v), IsQuote) == v
  {
    var t := v + ['\"'];
    assert Quoted(v)[0] == '\"' && Quoted(v)[1..] == t;
    assert StripLeft(Quoted(v), IsQuote) == StripLeft(t, IsQuote);
    if v == "" {
      assert t == ['\"'] && t[1..] == "";
      assert StripLeft(t, IsQuote) == StripLeft("", IsQuote) == "";
    } else {
      assert t[0] == v[0] && t[|t| - 1] == '\"' && t[..|t| - 1] == v;
      assert StripRight(t, IsQuote) == StripRight(v, IsQuote) == v;
    }
  }

  lemma ItemReads(labels: Labels, k: string, v: string)
    requires CleanKey(k) && CleanValue(v)
    ensures AddPiece(labels, Item(k, v)) == labels[k := v]
  {
    var item := Item(k, v);
    assert item[|item| - 1] == '\"' && item[0] == (if k == "" then '=' else k[0]);
    StripTrimmed(item, IsSpace);
    CutFirst(k, '=', Quoted(v));
    StripTrimmed(k, IsSpace);
    assert Quoted(v)[0] == '\"' == Quoted(v)[|Quoted(v)| - 1];
    StripTrimmed(Quoted(v), IsSpace);
    Unquoted(v);
  }

  function Restricted(labels: Labels, keys: seq<string>): Labels {
    map k | k in labels && k in keys :: labels[k]
  }

  lemma {:induction false} ItemsHold(keys: seq<string>, labels: Labels)
    requires CleanLabels(labels) && forall k <- keys :: k in labels
    ensures forall p <- Items(keys, labels) :: ',' !in p && '}' !in p
  {
    if keys == [] {
    } else {
      ItemsHold(keys[..|keys| - 1], labels);
      assert CleanKey(keys[|keys| - 1]);
    }
  }

  lemma RestrictedSnoc(labels: Labels, keys: seq<string>, k: string)
    requires k in labels
    ensures Restricted(labels, keys + [k]) == Restricted(labels, keys)[k := labels[k]]
  {
  }

  lemma RestrictedAll(labels: Labels, keys: seq<string>)
    requires forall k :: k in keys <==> k in labels
    ensures Restricted(labels, keys) == labels
  {
  }

  lemma ItemsStep(keys: seq<string>, k: string, labels: Labels)
    requires k in labels && forall j <- keys :: j in labels
    requires forall j <- keys + [k] :: j in labels
    ensures ReadLabels(Items(keys + [k], labels)) == AddPiece(ReadLabels(Items(keys, labels)), Item(k, labels[k]))
  {
    assert (keys + [k])[..|keys|] == keys;
    var items := Items(keys, labels);
    assert Items(keys + [k], labels) == items + [Item(k, labels[k])];
    assert (items + [Item(k, labels[k])])[..|items|] == items;
  }

  lemma {:induction false} ItemsRead(keys: seq<string>, labels: Labels)
    requires CleanLabels(labels) && forall k <- keys :: k in labels
    ensures ReadLabels(Items(keys, labels)) == Restricted(labels, keys)
  {
    if keys == [] {
      assert Restricted(labels, keys) == map[];
    } else {
      var rest, k := keys[..|keys| - 1], keys[|keys| - 1];
      assert keys == rest + [k];
      ItemsRead(rest, labels);
      ItemsStep(rest, k, labels);
      ItemReads(ReadLabels(Items(rest, labels)), k, labels[k]);
      RestrictedSnoc(labels, rest, k);
    }
  }

  /** A printed id is cut into the parts it was put together from. */
  lemma TextCuts(name: string, inner: string, tail: string)
    requires '{' !in name && '}' !in inner
    ensures var s := TextOf(name, inner, tail);
      Find(s, '{') < |s| && Before(s, '{') == name && Inner(s) == inner && Behind(Behind(s, '{'), '}') == tail
  {
    CutFirst(name, '{', inner + ['}'] + tail);
    CutFirst(inner, '}', tail);
  }

  lemma TextAppends(name: string, inner: string, tail: string)
    ensures TextOf(name, inner, "") + tail == TextOf(name, inner, tail)
  {
    assert inner + ['}'] + "" == inner + ['}'];
  }

  lemma PrintedReads(labels: Labels)
    requires CleanLabels(labels) && labels != map[]
    ensures '}' !in Printed(labels) && ReadLabels(Split(Printed(labels), ',')) == labels
  {
    var keys := Sorted(labels.Keys);
    ItemsRead(keys, labels);
    ItemsHold(keys, labels);
    RestrictedAll(labels, keys);
    SomeKey(labels, keys);
    SplitJoin(Items(keys, labels), ',');
    JoinHolds(Items(keys, labels), ',', '}');
  }

  lemma SomeKey(labels: Labels, keys: seq<string>)
    requires labels != map[] && forall k :: k in keys <==> k in labels
    ensures keys != []
  {
    var k :| k in labels;
    assert k in keys;
  }

  /** Splitting gives back what was printed exactly for clean names and labels. */
  lemma SplitInvertsPrint(s: Series)
    ensures SplitSeries(SeriesId(s.name, s.labels)) == s <==> Clean(s)
  {
    var sid := SeriesId(s.name, s.labels);
    ParsedIsClean(sid);
    if Clean(s) {
      FindNone(sid, '{');
      if s.labels != map[] {
        PrintedReads(s.labels);
        TextCuts(s.name, Printed(s.labels), "");
      }
    }
  }

  /** Two clean series with one id are the same series. */
  lemma IdsAreInjective(a: Series, b: Series)
    requires Clean(a) && Clean(b)
    ensures SeriesId(a.name, a.labels) == SeriesId(b.name, b.labels) <==> a == b
  {
    SplitInvertsPrint(a);
    SplitInvertsPrint(b);
  }

  // ----- References -----

  ghost function RefText(s: Series, stat: string): string {
    SeriesId(s.name, s.labels) + ['.'] + stat
  }

  lemma LabelledText(s: Series, stat: string)
    requires s.labels != map[]
    ensures RefText(s, stat) == TextOf(s.name, Printed(s.labels), ['.'] + stat)
  {
    TextAppends(s.name, Printed(s.labels), ['.'] + stat);
    Append(SeriesId(s.name, s.labels), stat);
  }

  lemma Append(id: string, stat: string)
    ensures id + ['.'] + stat == id + (['.'] + stat)
  {
  }

  lemma TailIsStat(stat: string)
    ensures TailStat(['.'] + stat) == Some(stat)
  {
    assert (['.'] + stat)[1..] == stat;
  }

  lemma LabelledRef(s: Series, stat: string)
    requires Clean(s) && s.labels != map[]
    ensures ParseRef(RefText(s, stat)) == Ref(s.name, s.labels, Some(stat))
  {
    var tail := ['.'] + stat;
    PrintedReads(s.labels);
    LabelledText(s, stat);
    TextCuts(s.name, Printed(s.labels), tail);
    TailIsStat(stat);
  }

  /** Parsing a reference recovers name, labels and statistic exactly for clean series, where a
      bare name also needs a statistic without dots and braces. */
  lemma ParseInvertsPrint(s: Series, stat: string)
    ensures ParseRef(RefText(s, stat)) == Ref(s.name, s.labels, Some(stat))
       <==> Clean(s) && (s.labels == map[] ==> '.' !in stat && '{' !in stat)
  {
    var ref := RefText(s, stat);
    ParsedIsClean(ref);
    FindNone(ref, '{');
    if Clean(s) && s.labels != map[] {
      LabelledRef(s, stat);
    } else if Clean(s) {
      BareRef(s.name, stat);
    }
  }

  lemma BareRef(name: string, stat: string)
    requires '{' !in name
    ensures ParseRef(name + ['.'] + stat) == Ref(name, map[], Some(stat)) <==> '.' !in stat && '{' !in stat
  {
    var ref := name + ['.'] + stat;
    FindNone(ref, '{');
    if '{' in stat {
      assert ref[|name|] == '.' && Find(ref, '{') > |name|;
      assert |Before(ref, '{')| > |name|;
    } else if '.' in stat {
      var k :| 0 <= k < |stat| && stat[k] == '.';
      assert ref[|name| + 1 + k] == '.';
      assert FindLast(ref, '.') > |name|;
    } else {
      CutLast(name, '.', stat);
    }
  }

  /** Splitting off the statistic undoes appending it, exactly when there is an id and a statistic
      without dots. */
  lemma SplitOffInvertsAppend(id: string, stat: string)
    ensures SplitOff(id + ['.'] + stat) == WithStat(id, stat) <==> id != "" && stat != "" && '.' !in stat
  {
    var ref := id + ['.'] + stat;
    if '.' in stat {
      var k :| 0 <= k < |stat| && stat[k] == '.';
      assert ref[|id| + 1 + k] == '.';
      assert FindLast(ref, '.') > |id|;
    } else {
      CutLast(id, '.', stat);
    }
  }

  // ----- Regrouping -----

  /** The id under which a sampled series is reported: its own labels over those of its probe. */
  ghost function Regrouped(family: string, base: Labels, key: string): string {
    SeriesId(family + ['.'] + SplitSeries(key).name, base + SplitSeries(key).labels)
  }

  lemma OverlaidClean(base: Labels, extra: Labels)
    requires CleanLabels(base) && CleanLabels(extra)
    ensures CleanLabels(base + extra)
  {
  }

  /** Regrouping merges two sampled series only if they have one name and the same labels on top of
      the probe's; it never does when no series overrides a label of its probe. */
  lemma RegroupingKeepsApart(family: string, base: Labels, a: Series, b: Series)
    requires '{' !in family && CleanLabels(base) && Clean(a) && Clean(b)
    ensures Regrouped(family, base, SeriesId(a.name, a.labels)) == Regrouped(family, base, SeriesId(b.name, b.labels))
       <==> a.name == b.name && base + a.labels == base + b.labels
    ensures base.Keys !! a.labels.Keys && base.Keys !! b.labels.Keys && a != b
        ==> Regrouped(family, base, SeriesId(a.name, a.labels)) != Regrouped(family, base, SeriesId(b.name, b.labels))
  {
    SplitInvertsPrint(a);
    SplitInvertsPrint(b);
    OverlaidClean(base, a.labels);
    OverlaidClean(base, b.labels);
    var x := Series(family + ['.'] + a.name, base + a.labels);
    var y := Series(family + ['.'] + b.name, base + b.labels);
    IdsAreInjective(x, y);
    assert x.name[|family| + 1..] == a.name && y.name[|family| + 1..] == b.name;
    if base.Keys !! a.labels.Keys && base.Keys !! b.labels.Keys && base + a.labels == base + b.labels {
      DisjointOverlays(base, a.labels, b.labels);
    }
  }

  lemma DisjointOverlays(base: Labels, a: Labels, b: Labels)
    requires base.Keys !! a.Keys && base.Keys !! b.Keys && base + a == base + b
    ensures a == b
  {
    forall k ensures k in a <==> k in b {
      assert k in base + a <==> k in base + b;
    }
    forall k | k in a ensures a[k] == b[k] {
      assert (base + a)[k] == (base + b)[k];
    }
  }
}
