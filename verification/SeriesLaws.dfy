/** What a series id looks like, and what is read from any text, printed here or not. */
module SeriesLaws {
  import opened Wrappers
  import opened Strings
  import opened SeriesIds

  // ----- Texts -----

  lemma CutAt(s: string, c: char)
    requires Find(s, c) < |s|
    ensures s == Before(s, c) + [c] + Behind(s, c) && |Behind(s, c)| < |s|
  {
  }

  lemma JoinCons(part: string, parts: seq<string>, c: char)
    requires parts != []
    ensures Join([part] + parts, c) == part + [c] + Join(parts, c)
  {
    assert ([part] + parts)[1..] == parts;
  }

  /** Joining what was split gives the text back. */
  lemma {:induction false} JoinSplit(s: string, c: char)
    ensures Join(Split(s, c), c) == s
    decreases |s|
  {
    if Find(s, c) == |s| {
    } else {
      CutAt(s, c);
      JoinSplit(Behind(s, c), c);
      JoinCons(Before(s, c), Split(Behind(s, c), c), c);
    }
  }

  predicate AllDropped(s: string, drop: CharTest) { forall c <- s :: drop(c) }

  lemma {:induction false} LeftCut(s: string, drop: CharTest) returns (a: string)
    ensures s == a + StripLeft(s, drop) && AllDropped(a, drop)
  {
    if s != "" && drop(s[0]) {
      var rest := LeftCut(s[1..], drop);
      a := [s[0]] + rest;
    } else {
      a := "";
    }
  }

  lemma {:induction false} RightCut(s: string, drop: CharTest) returns (b: string)
    ensures s == StripRight(s, drop) + b && AllDropped(b, drop)
  {
    if s != "" && drop(s[|s| - 1]) {
      var rest := RightCut(s[..|s| - 1], drop);
      b := rest + [s[|s| - 1]];
    } else {
      b := "";
    }
  }

  /** Stripping takes droppable characters off both ends, all that are there and nothing else. */
  lemma StripCuts(s: string, drop: CharTest) returns (a: string, b: string)
    ensures s == a + Strip(s, drop) + b && AllDropped(a, drop) && AllDropped(b, drop) && Trimmed(Strip(s, drop), drop)
  {
    a := LeftCut(s, drop);
    b := RightCut(StripLeft(s, drop), drop);
    assert s == a + (Strip(s, drop) + b);
  }

  /** Texts are compared at the first place where they differ; one that ends there comes first. */
  lemma {:induction false} OrderIsByCharacters(p: string, x: string, y: string)
    ensures Leq(p + x, p + y) <==> x == "" || (y != "" && (x[0] < y[0] || (x[0] == y[0] && Leq(x[1..], y[1..]))))
  {
    if p == "" {
      assert p + x == x && p + y == y;
    } else {
      assert (p + x)[1..] == p[1..] + x && (p + y)[1..] == p[1..] + y;
      OrderIsByCharacters(p[1..], x, y);
    }
  }

  /** Among the first 128 characters these are blank. */
  lemma BlanksAre(c: char)
    requires c < '\U{80}'
    ensures IsSpace(c) <==> c == ' ' || c == '\t' || c == '\n' || c == '\r' || c == '\U{B}' || c == '\U{C}'
                            || c == '\U{1C}' || c == '\U{1D}' || c == '\U{1E}' || c == '\U{1F}'
    ensures IsQuote(c) <==> c == '"'
  {
  }

  // ----- Printing -----

  /** `key="value"` for each key in turn, with commas between. */
  function Listed(keys: seq<string>, labels: Labels): string
    requires forall k <- keys :: k in labels
  {
    if keys == [] then ""
    else if |keys| == 1 then keys[0] + "=\"" + labels[keys[0]] + "\""
    else keys[0] + "=\"" + labels[keys[0]] + "\"," + Listed(keys[1..], labels)
  }

  lemma ItemIs(k: string, v: string)
    ensures Item(k, v) == k + "=\"" + v + "\""
  {
  }

  lemma {:induction false} ItemsAt(keys: seq<string>, labels: Labels, i: nat)
    requires (forall k <- keys :: k in labels) && i < |keys|
    ensures Items(keys, labels)[i] == Item(keys[i], labels[keys[i]])
  {
    if i == |keys| - 1 {
    } else {
      ItemsAt(keys[..|keys| - 1], labels, i);
    }
  }

  lemma {:induction false} JoinedIs(items: seq<string>, keys: seq<string>, labels: Labels)
    requires |items| == |keys| && forall k <- keys :: k in labels
    requires forall i | 0 <= i < |keys| :: items[i] == Item(keys[i], labels[keys[i]])
    ensures Join(items, ',') == Listed(keys, labels)
    decreases |keys|
  {
    if |keys| == 0 {
    } else if |keys| == 1 {
      ItemIs(keys[0], labels[keys[0]]);
    } else {
      ItemIs(keys[0], labels[keys[0]]);
      JoinedIs(items[1..], keys[1..], labels);
      var first, rest := keys[0] + "=\"" + labels[keys[0]] + "\"", Listed(keys[1..], labels);
      assert first + [','] + rest == keys[0] + "=\"" + labels[keys[0]] + "\"," + rest;
    }
  }

  /** An id is the bare name if there are no labels, and else `name{key="value",...}` with the keys in order. */
  lemma IdIs(name: string, labels: Labels) returns (keys: seq<string>)
    ensures forall k :: k in keys <==> k in labels
    ensures forall i, j | 0 <= i < j < |keys| :: keys[i] != keys[j] && Leq(keys[i], keys[j])
    ensures SeriesId(name, labels) == if labels == map[] then name else name + "{" + Listed(keys, labels) + "}"
  {
    keys := Sorted(labels.Keys);
    forall i | 0 <= i < |keys| ensures Items(keys, labels)[i] == Item(keys[i], labels[keys[i]]) {
      ItemsAt(keys, labels, i);
    }
    JoinedIs(Items(keys, labels), keys, labels);
    var inner := Printed(labels);
    assert name + ['{'] + (inner + ['}'] + "") == name + "{" + inner + "}";
  }

  // ----- Reading labels -----

  /** The piece is not blank and names the key before its first equals sign. */
  predicate Enters(piece: string, k: string) {
    Strip(piece, IsSpace) != "" && Strip(Before(Strip(piece, IsSpace), '='), IsSpace) == k
  }

  /** What it has behind that sign, without blanks and then without quotes around it. */
  function Entered(piece: string): string {
    Strip(Strip(Behind(Strip(piece, IsSpace), '='), IsSpace), IsQuote)
  }

  lemma PieceRead(labels: Labels, piece: string, k: string)
    ensures k in AddPiece(labels, piece) <==> Enters(piece, k) || k in labels
    ensures k in AddPiece(labels, piece) ==>
      AddPiece(labels, piece)[k] == if Enters(piece, k) then Entered(piece) else labels[k]
  {
  }

  lemma LabelsSnoc(pieces: seq<string>)
    requires pieces != []
    ensures ReadLabels(pieces) == AddPiece(ReadLabels(pieces[..|pieces| - 1]), pieces[|pieces| - 1])
  {
  }

  /** The last piece that enters a label gives its value, */
  lemma {:induction false} LabelRead(pieces: seq<string>, k: string, i: nat)
    requires i < |pieces| && Enters(pieces[i], k) && forall j | i < j < |pieces| :: !Enters(pieces[j], k)
    ensures k in ReadLabels(pieces) && ReadLabels(pieces)[k] == Entered(pieces[i])
    decreases |pieces|
  {
    var n := |pieces| - 1;
    LabelsSnoc(pieces);
    PieceRead(ReadLabels(pieces[..n]), pieces[n], k);
    if i == n {
    } else {
      LabelRead(pieces[..n], k, i);
    }
  }

  /** and a label that no piece enters is not there. */
  lemma {:induction false} LabelUnread(pieces: seq<string>, k: string)
    requires forall j | 0 <= j < |pieces| :: !Enters(pieces[j], k)
    ensures k !in ReadLabels(pieces)
  {
    if pieces == [] {
    } else {
      var n := |pieces| - 1;
      LabelsSnoc(pieces);
      PieceRead(ReadLabels(pieces[..n]), pieces[n], k);
      LabelUnread(pieces[..n], k);
    }
  }

  // ----- Reading ids and references -----

  lemma OpenText(name: string, inner: string)
    requires '{' !in name && '}' !in inner
    ensures var s := name + "{" + inner;
      Find(s, '{') < |s| && Before(s, '{') == name && Behind(s, '{') == inner && Inner(s) == inner
        && Behind(inner, '}') == ""
  {
    assert name + "{" + inner == name + ['{'] + inner;
    CutFirst(name, '{', inner);
    FindNone(inner, '}');
  }

  lemma ClosedText(name: string, inner: string, tail: string)
    requires '{' !in name && '}' !in inner
    ensures var s := name + "{" + inner + "}" + tail;
      Find(s, '{') < |s| && Before(s, '{') == name && Inner(s) == inner && Behind(Behind(s, '{'), '}') == tail
  {
    assert name + "{" + inner + "}" + tail == TextOf(name, inner, tail);
    TextCuts(name, inner, tail);
  }

  /** Without a brace all is name; otherwise the labels are between the first brace and the next closing one, or the
      end of the text, and what follows is passed over. */
  lemma SplitMeans(name: string, inner: string, rest: string)
    requires '{' !in name && '}' !in inner
    ensures SplitSeries(name) == Series(name, map[])
    ensures SplitSeries(name + "{" + inner) == Series(name, ReadLabels(Split(inner, ',')))
    ensures SplitSeries(name + "{" + inner + "}" + rest) == Series(name, ReadLabels(Split(inner, ',')))
  {
    FindNone(name, '{');
    OpenText(name, inner);
    ClosedText(name, inner, rest);
  }

  /** A reference with a brace reads in the same way, with a statistic if a dot follows the closing brace at once. */
  lemma ParseMeans(name: string, inner: string, tail: string)
    requires '{' !in name && '}' !in inner
    ensures ParseRef(name + "{" + inner) == Ref(name, ReadLabels(Split(inner, ',')), None)
    ensures ParseRef(name + "{" + inner + "}" + tail)
         == Ref(name, ReadLabels(Split(inner, ',')), if tail != "" && tail[0] == '.' then Some(tail[1..]) else None)
  {
    OpenText(name, inner);
    ClosedText(name, inner, tail);
  }

  /** Without one the statistic is what is behind the last dot, if there is a dot. */
  lemma ParseBareMeans(name: string, tail: string)
    requires '{' !in name
    ensures '.' !in name ==> ParseRef(name) == Ref(name, map[], None)
    ensures '.' !in tail && '{' !in tail ==> ParseRef(name + "." + tail) == Ref(name, map[], Some(tail))
  {
    FindNone(name, '{');
    NoDot(name);
    BareRef(name, tail);
    assert name + "." + tail == name + ['.'] + tail;
  }

  lemma NoDot(s: string)
    ensures '.' !in s <==> FindLast(s, '.') < 0
  {
  }

  /** A statistic splits off at the last dot, unless there is none, or nothing before it or behind it. */
  lemma SplitOffMeans(id: string, stat: string)
    requires '.' !in stat
    ensures SplitOff(stat) == NoStat
    ensures SplitOff(id + "." + stat) == if id == "" || stat == "" then NoStat else WithStat(id, stat)
  {
    NoDot(stat);
    CutLast(id, '.', stat);
    assert id + "." + stat == id + ['.'] + stat;
  }

  /** A sampled series is reported under its probe's family and its own name, with its labels over the probe's. */
  lemma RegroupedIs(family: string, base: Labels, name: string, labels: Labels)
    requires Clean(Series(name, labels))
    ensures Regrouped(family, base, SeriesId(name, labels)) == SeriesId(family + "." + name, base + labels)
  {
    SplitInvertsPrint(Series(name, labels));
  }
}
