/**
 * The line-protocol codec of src/protocol.rs: a subset of the InfluxDB v2
 * line protocol with no escaping and a mandatory timestamp,
 *
 *   <name>[,<tag>=<value>...] <field>=<value>[,<field>=<value>...] <timestamp>
 *
 * The first half of the module states the codec as functions on values
 * (ParseLine, Render, SerializeRecord) and proves its properties; the class
 * LineProtocol is the mutable record the source fills step by step, and its
 * methods are proved against those functions.
 */
module Protocol {
  import opened Wrappers
  import opened Strings
  import opened Int64Text
  import opened Pairs

  /** The contents of a LineProtocol: series name, tags, fields and timestamp. */
  datatype Record = Record(measurementName: string, tagSet: seq<Entry>, fieldSet: seq<Entry>, timestamp: int)

  /** The ways parse fails, in the order it checks for them. */
  datatype ParseError =
    | EmptyInput          // the line is the empty string
    | BrokenLine          // the line has no first token (it is all whitespace)
    | NoFieldKey          // the line has no second token
    | NoTimestamp         // the line has no third token
    | MalformedTimestamp  // the third token is not an i64 (the source panics in `unwrap`)

  /** The error text of serialize on a record without fields. */
  const NoFieldKeyMessage: string := "No FieldKey set"

  // ---------------------------------------------------------------------------
  // Decoding
  // ---------------------------------------------------------------------------

  /** The guard of `tag` and `field`: only a non-empty key with a non-empty value is inserted. */
  function GuardedInsert(ps: seq<Entry>, k: string, v: string): seq<Entry>
  {
    if |k| > 0 && |v| > 0 then Insert(ps, k, v) else ps
  }

  /** A token's comma-separated segments: split at every ',' when there is one, else the token itself. */
  function Segments(token: string): (segs: seq<string>)
    ensures |segs| >= 1
  {
    if ',' in token then Split(token, ',') else [token]
  }

  /** One `key=value` segment, split at its first '=', through the guard; a segment without '=' is skipped. */
  function AddSegment(ps: seq<Entry>, seg: string): seq<Entry>
  {
    match SplitOnce(seg, '=')
    case None => ps
    case Some((k, v)) => GuardedInsert(ps, k, v)
  }

  /** The segments added one after the other, first to last. */
  function AddSegments(ps: seq<Entry>, segs: seq<string>): seq<Entry>
    decreases |segs|
  {
    if segs == [] then ps
    else AddSegment(AddSegments(ps, segs[..|segs| - 1]), segs[|segs| - 1])
  }

  /**
   * `LineProtocol::parse`: the first whitespace token gives the name (up to
   * its first ',') and the tags, the second the fields, the third the
   * timestamp; any further tokens are ignored.
   */
  function ParseLine(line: string): Result<Record, ParseError>
  {
    if line == [] then Err(EmptyInput)
    else
      var words := Words(line);
      if |words| == 0 then Err(BrokenLine)
      else
        var head := Segments(words[0]);
        var tags := AddSegments([], head[1..]);
        if |words| == 1 then Err(NoFieldKey)
        else
          var fields := AddSegments([], Segments(words[1]));
          if |words| == 2 then Err(NoTimestamp)
          else
            match ParseI64(words[2])
            case None => Err(MalformedTimestamp)
            case Some(ts) => Ok(Record(head[0], tags, fields, ts))
  }

  // ---------------------------------------------------------------------------
  // Encoding
  // ---------------------------------------------------------------------------

  function EntryText(e: Entry): string
  {
    e.0 + "=" + e.1
  }

  function EntryTexts(ps: seq<Entry>): (ts: seq<string>)
    ensures |ts| == |ps|
  {
    seq(|ps|, i requires 0 <= i < |ps| => EntryText(ps[i]))
  }

  /** The line serialize writes: name and `,k=v` per tag, a space, the fields joined by ',', a space, the timestamp. */
  function Render(rec: Record): string
  {
    Join([rec.measurementName] + EntryTexts(rec.tagSet), ',') + " "
      + Join(EntryTexts(rec.fieldSet), ',') + " " + FormatI64(rec.timestamp)
  }

  /** `LineProtocol::serialize`: an error for a record without fields, otherwise the rendered line. */
  function SerializeRecord(rec: Record): Result<string, string>
  {
    if rec.fieldSet == [] then Err(NoFieldKeyMessage) else Ok(Render(rec))
  }

  // ---------------------------------------------------------------------------
  // Which records and lines survive a round trip
  // ---------------------------------------------------------------------------

  /** A key that can be written without escaping: non-empty, no whitespace, ',' or '='. */
  predicate KeyText(s: string) {
    |s| > 0 && NoWhitespace(s) && ',' !in s && '=' !in s
  }

  /** A value that can be written without escaping: non-empty, no whitespace or ','. */
  predicate ValueText(s: string) {
    |s| > 0 && NoWhitespace(s) && ',' !in s
  }

  predicate WritableEntries(ps: seq<Entry>) {
    UniqueKeys(ps) && forall i :: 0 <= i < |ps| ==> KeyText(ps[i].0) && ValueText(ps[i].1)
  }

  /** A record whose rendered line reads back as itself. */
  predicate Writable(rec: Record) {
    && |rec.measurementName| > 0 && NoWhitespace(rec.measurementName) && ',' !in rec.measurementName
    && WritableEntries(rec.tagSet)
    && WritableEntries(rec.fieldSet) && |rec.fieldSet| > 0
    && IsI64(rec.timestamp)
  }

  /** A well-formed line: the rendering of a writable record. */
  ghost predicate WellFormedLine(line: string) {
    exists rec :: Writable(rec) && Render(rec) == line
  }

  /** What the guard of `tag` and `field` keeps true of a map: distinct keys, non-empty keys and values. */
  predicate StoredEntries(ps: seq<Entry>) {
    UniqueKeys(ps) && forall i :: 0 <= i < |ps| ==> |ps[i].0| > 0 && |ps[i].1| > 0
  }

  // ---------------------------------------------------------------------------
  // Lemmas
  // ---------------------------------------------------------------------------

  /** The guarded insert keeps keys distinct and never stores an empty key or value. */
  lemma GuardedInsertStored(ps: seq<Entry>, k: string, v: string)
    requires StoredEntries(ps)
    ensures StoredEntries(GuardedInsert(ps, k, v))
  {
    if |k| > 0 && |v| > 0 {
      InsertLookup(ps, k, v);
      InsertEntries(ps, k, v);
    }
  }

  /** Segments is str::split at ',' (the source's special case for a token without ',' changes nothing). */
  lemma SegmentsIsSplit(token: string)
    ensures Segments(token) == Split(token, ',')
  {
  }

  /**
   * Value found under key k after adding segments to ps, by an independent
   * per-key reading: the value of the LAST segment `k=v` (split at its first
   * '=') with k and v non-empty; if there is none, what ps had.
   */
  function LastValue(segs: seq<string>, k: string, absent: Option<string>): Option<string>
    decreases |segs|
  {
    if segs == [] then absent
    else
      var s := SplitOnce(segs[|segs| - 1], '=');
      if s.Some? && s.value.0 == k && |k| > 0 && |s.value.1| > 0 then Some(s.value.1)
      else LastValue(segs[..|segs| - 1], k, absent)
  }

  /**
   * Adding segments behaves as a sequence of map inserts: segments without
   * '=' or with an empty key or value are dropped, a repeated key keeps the
   * last value, and keys stay distinct.
   */
  lemma {:induction false} AddSegmentsLookup(ps: seq<Entry>, segs: seq<string>, k: string)
    requires UniqueKeys(ps)
    ensures UniqueKeys(AddSegments(ps, segs))
    ensures Lookup(AddSegments(ps, segs), k) == LastValue(segs, k, Lookup(ps, k))
    decreases |segs|
  {
    if segs != [] {
      var prefix := segs[..|segs| - 1];
      var before := AddSegments(ps, prefix);
      AddSegmentsLookup(ps, prefix, k);
      var s := SplitOnce(segs[|segs| - 1], '=');
      if s.Some? && |s.value.0| > 0 && |s.value.1| > 0 {
        InsertLookup(before, s.value.0, s.value.1);
      }
    }
  }

  /** Segments of a token without whitespace or ',' yield entries that can be written back. */
  lemma {:induction false} AddSegmentsWritable(ps: seq<Entry>, segs: seq<string>)
    requires WritableEntries(ps)
    requires forall i :: 0 <= i < |segs| ==> NoWhitespace(segs[i]) && ',' !in segs[i]
    ensures WritableEntries(AddSegments(ps, segs))
    decreases |segs|
  {
    if segs != [] {
      var prefix := segs[..|segs| - 1];
      var before := AddSegments(ps, prefix);
      AddSegmentsWritable(ps, prefix);
      var seg := segs[|segs| - 1];
      var s := SplitOnce(seg, '=');
      if s.Some? && |s.value.0| > 0 && |s.value.1| > 0 {
        var (k, v) := s.value;
        assert forall c :: c in k || c in v ==> c in seg;
        InsertLookup(before, k, v);
        InsertEntries(before, k, v);
      }
    }
  }

  /**
   * What parse accepts: the name is the first token up to its first ',',
   * tags and fields can be written back (distinct, non-empty keys without
   * whitespace, ',' or '='; non-empty values without whitespace or ','), and
   * the timestamp is an i64.
   */
  lemma ParsedRecord(line: string)
    requires ParseLine(line).Ok?
    ensures var rec := ParseLine(line).value;
      var word := Words(line)[0];
      && rec.measurementName == word[..IndexOf(word, ',')]
      && NoWhitespace(rec.measurementName) && ',' !in rec.measurementName
      && WritableEntries(rec.tagSet) && WritableEntries(rec.fieldSet)
      && IsI64(rec.timestamp)
  {
    var words := Words(line);
    var head := Segments(words[0]);
    var fsegs := Segments(words[1]);
    SplitPieces(words[0], ',');
    SplitPieces(words[1], ',');
    assert forall c :: c in head[0] ==> c in words[0];
    AddSegmentsWritable([], head[1..]);
    AddSegmentsWritable([], fsegs);
  }

  /** A line is rejected exactly when it is empty, has fewer than three tokens, or its third token is no i64. */
  lemma ParseErrors(line: string)
    ensures line == [] ==> ParseLine(line) == Err(EmptyInput)
    ensures line != [] && |Words(line)| == 0 ==> ParseLine(line) == Err(BrokenLine)
    ensures line != [] && |Words(line)| == 1 ==> ParseLine(line) == Err(NoFieldKey)
    ensures line != [] && |Words(line)| == 2 ==> ParseLine(line) == Err(NoTimestamp)
    ensures |Words(line)| >= 3 ==> (ParseLine(line).Err? <==> ParseI64(Words(line)[2]).None?)
    ensures |Words(line)| >= 3 && ParseI64(Words(line)[2]).None? ==> ParseLine(line) == Err(MalformedTimestamp)
  {
  }

  /** The success branch of ParseLine, for callers that have the third token's value at hand. */
  lemma ParseLineOk(line: string, ts: int)
    requires line != [] && |Words(line)| >= 3 && ParseI64(Words(line)[2]) == Some(ts)
    ensures var words := Words(line);
      ParseLine(line) == Ok(Record(Segments(words[0])[0], AddSegments([], Segments(words[0])[1..]),
                                   AddSegments([], Segments(words[1])), ts))
  {
  }

  /**
   * What an accepted line decodes to, read token by token: under every key
   * the tags hold the value of the last `k=v` among the ','-pieces of the
   * first token after the name, the fields that of the last `k=v` among the
   * ','-pieces of the second token, and the timestamp is the third token's
   * i64 value.
   */
  lemma ParsedLookup(line: string, k: string)
    requires ParseLine(line).Ok?
    ensures var rec := ParseLine(line).value;
      var words := Words(line);
      && Lookup(rec.tagSet, k) == LastValue(Split(words[0], ',')[1..], k, None)
      && Lookup(rec.fieldSet, k) == LastValue(Split(words[1], ','), k, None)
      && ParseI64(words[2]) == Some(rec.timestamp)
  {
    var words := Words(line);
    SegmentsIsSplit(words[0]);
    SegmentsIsSplit(words[1]);
    AddSegmentsLookup([], Split(words[0], ',')[1..], k);
    AddSegmentsLookup([], Split(words[1], ','), k);
  }

  /** Tokens after the third are ignored. */
  lemma ExtraTokensIgnored(line: string, w: char, extra: string)
    requires |Words(line)| >= 3 && IsWhitespace(w)
    ensures ParseLine(line + [w] + extra) == ParseLine(line)
  {
    WordsAroundSpace(line, w, extra);
  }

  /**
   * parse does not reject a line whose field token holds no `key=value`
   * pair: the record it returns has no fields, and serialize refuses it.
   */
  lemma ParseAcceptsNoFields(name: string, f: string, ts: int)
    requires |name| > 0 && NoWhitespace(name) && ',' !in name
    requires |f| > 0 && NoWhitespace(f) && '=' !in f
    requires IsI64(ts)
    ensures ParseLine(name + " " + f + " " + FormatI64(ts)) == Ok(Record(name, [], [], ts))
    ensures SerializeRecord(Record(name, [], [], ts)) == Err(NoFieldKeyMessage)
  {
    var t := FormatI64(ts);
    var line := name + " " + f + " " + t;
    assert line == name + [' '] + (f + [' '] + t);
    WordsAroundSpace(name, ' ', f + [' '] + t);
    WordsAroundSpace(f, ' ', t);
    WordsOfWord(name);
    WordsOfWord(f);
    WordsOfWord(t);
    assert Words(line) == [name, f, t];
    SplitPieces(f, ',');
    NoPairsAdded(Segments(f));
    ParseFormat(ts);
  }

  lemma AddSegmentsStep(ps: seq<Entry>, segs: seq<string>, i: nat)
    requires i < |segs|
    ensures AddSegments(ps, segs[..i + 1]) == AddSegment(AddSegments(ps, segs[..i]), segs[i])
  {
    assert segs[..i + 1][..i] == segs[..i];
  }

  /** Segments without '=' add nothing. */
  lemma {:induction false} NoPairsAdded(segs: seq<string>)
    requires forall i :: 0 <= i < |segs| ==> '=' !in segs[i]
    ensures AddSegments([], segs) == []
    decreases |segs|
  {
    if segs != [] {
      NoPairsAdded(segs[..|segs| - 1]);
    }
  }

  /** Adding the texts `k=v` of writable entries, in order, rebuilds exactly those entries. */
  lemma {:induction false} AddEntryTexts(ps: seq<Entry>)
    requires WritableEntries(ps)
    ensures AddSegments([], EntryTexts(ps)) == ps
    decreases |ps|
  {
    if ps != [] {
      var n := |ps|;
      var prefix := ps[..n - 1];
      assert EntryTexts(ps)[..n - 1] == EntryTexts(prefix);
      AddEntryTexts(prefix);
      var (k, v) := ps[n - 1];
      SplitOnceAt(k, '=', v);
      assert EntryTexts(ps)[n - 1] == k + ['='] + v;
      assert KeyIndex(prefix, k) == n - 1;
      assert prefix + [(k, v)] == ps;
    }
  }

  /** The texts of writable entries carry no whitespace and no ','. */
  lemma EntryTextsClean(ps: seq<Entry>)
    requires WritableEntries(ps)
    ensures forall i :: 0 <= i < |ps| ==> |EntryTexts(ps)[i]| > 0 && NoWhitespace(EntryTexts(ps)[i]) && ',' !in EntryTexts(ps)[i]
  {
  }

  /** Joining non-empty clean pieces with ',' gives one non-empty token without whitespace. */
  lemma JoinIsWord(parts: seq<string>)
    requires |parts| > 0 && |parts[0]| > 0
    requires forall i :: 0 <= i < |parts| ==> NoWhitespace(parts[i])
    ensures |Join(parts, ',')| > 0 && NoWhitespace(Join(parts, ','))
  {
    forall c | IsWhitespace(c)
      ensures c !in Join(parts, ',')
    {
      JoinAvoids(parts, ',', c);
    }
    if |parts| > 1 {
      assert Join(parts, ',') == parts[0] + [','] + Join(parts[1..], ',');
    }
  }

  /** The rendering of a writable record has three tokens: name and tags, fields, timestamp. */
  lemma RenderWords(rec: Record)
    requires Writable(rec)
    ensures Words(Render(rec)) == [Join([rec.measurementName] + EntryTexts(rec.tagSet), ','),
                                   Join(EntryTexts(rec.fieldSet), ','), FormatI64(rec.timestamp)]
  {
    var headParts := [rec.measurementName] + EntryTexts(rec.tagSet);
    var fieldParts := EntryTexts(rec.fieldSet);
    var h := Join(headParts, ',');
    var f := Join(fieldParts, ',');
    var t := FormatI64(rec.timestamp);
    EntryTextsClean(rec.tagSet);
    EntryTextsClean(rec.fieldSet);
    JoinIsWord(headParts);
    JoinIsWord(fieldParts);
    assert Render(rec) == h + [' '] + (f + [' '] + t);
    WordsAroundSpace(h, ' ', f + [' '] + t);
    WordsAroundSpace(f, ' ', t);
    WordsOfWord(h);
    WordsOfWord(f);
    WordsOfWord(t);
  }

  /** The comma-separated segments of a joined token are its pieces, and their pairs rebuild the entries. */
  lemma SegmentsOfEntries(lead: seq<string>, ps: seq<Entry>)
    requires WritableEntries(ps)
    requires |lead| + |ps| > 0
    requires forall i :: 0 <= i < |lead| ==> ',' !in lead[i]
    ensures Segments(Join(lead + EntryTexts(ps), ',')) == lead + EntryTexts(ps)
    ensures AddSegments([], EntryTexts(ps)) == ps
  {
    EntryTextsClean(ps);
    SegmentsIsSplit(Join(lead + EntryTexts(ps), ','));
    SplitJoin(lead + EntryTexts(ps), ',');
    AddEntryTexts(ps);
  }

  /** Parsing the rendering of a writable record gives back the record, and serialize writes that rendering. */
  lemma RoundTrip(rec: Record)
    requires Writable(rec)
    ensures ParseLine(Render(rec)) == Ok(rec)
    ensures SerializeRecord(rec) == Ok(Render(rec))
  {
    var line := Render(rec);
    var tagTexts := EntryTexts(rec.tagSet);
    var fieldTexts := EntryTexts(rec.fieldSet);
    var h := Join([rec.measurementName] + tagTexts, ',');
    var f := Join(fieldTexts, ',');
    RenderWords(rec);
    assert Words(line) == [h, f, FormatI64(rec.timestamp)];
    SegmentsOfEntries([rec.measurementName], rec.tagSet);
    assert Segments(h) == [rec.measurementName] + tagTexts;
    assert Segments(h)[1..] == tagTexts;
    assert [] + fieldTexts == fieldTexts;
    SegmentsOfEntries([], rec.fieldSet);
    assert Segments(f) == fieldTexts;
    ParseFormat(rec.timestamp);
    ParseLineOk(line, rec.timestamp);
  }

  /** serialize(parse(line)) == line for every well-formed line. */
  lemma LineRoundTrip(line: string)
    requires WellFormedLine(line)
    ensures ParseLine(line).Ok?
    ensures SerializeRecord(ParseLine(line).value) == Ok(line)
  {
    var rec :| Writable(rec) && Render(rec) == line;
    RoundTrip(rec);
  }

  /**
   * The round trip up to map order: whatever order serialize visits the
   * tags and fields in (Rust's HashMap fixes none), parsing its line yields
   * exactly the record's tag and field entries.
   */
  lemma RoundTripAnyOrder(rec: Record, tagOrder: seq<Entry>, fieldOrder: seq<Entry>)
    requires Writable(rec)
    requires UniqueKeys(tagOrder) && forall e :: e in tagOrder <==> e in rec.tagSet
    requires UniqueKeys(fieldOrder) && forall e :: e in fieldOrder <==> e in rec.fieldSet
    ensures var line := Render(rec.(tagSet := tagOrder, fieldSet := fieldOrder));
      && ParseLine(line).Ok?
      && ParseLine(line).value.measurementName == rec.measurementName
      && ParseLine(line).value.timestamp == rec.timestamp
      && (forall e :: e in ParseLine(line).value.tagSet <==> e in rec.tagSet)
      && (forall e :: e in ParseLine(line).value.fieldSet <==> e in rec.fieldSet)
  {
    var reordered := rec.(tagSet := tagOrder, fieldSet := fieldOrder);
    assert forall i :: 0 <= i < |tagOrder| ==> tagOrder[i] in rec.tagSet;
    assert forall i :: 0 <= i < |fieldOrder| ==> fieldOrder[i] in rec.fieldSet;
    assert |fieldOrder| > 0 by {
      assert rec.fieldSet[0] in fieldOrder;
    }
    RoundTrip(reordered);
  }

  /**
   * The order serialize visits a map in shows in its line: the same two
   * tags written in the other order give a different line. So with an
   * unordered map, serialize(parse(line)) == line can fail for a line with
   * two tags or two fields.
   */
  lemma SwappedTagsChangeLine(rec: Record)
    requires Writable(rec) && |rec.tagSet| == 2
    ensures var swapped := rec.(tagSet := [rec.tagSet[1], rec.tagSet[0]]);
      Writable(swapped) && Render(swapped) != Render(rec)
  {
    var swapped := rec.(tagSet := [rec.tagSet[1], rec.tagSet[0]]);
    assert WritableEntries(swapped.tagSet);
    RoundTrip(rec);
    RoundTrip(swapped);
    assert swapped.tagSet[0] != rec.tagSet[0];
  }

  // ---------------------------------------------------------------------------
  // The mutable record of src/protocol.rs
  // ---------------------------------------------------------------------------

  class LineProtocol {
    var measurementName: string
    var tagSet: seq<Entry>
    var fieldSet: seq<Entry>
    var timestamp: int

    ghost predicate Valid()
      reads this
    {
      StoredEntries(tagSet) && StoredEntries(fieldSet) && IsI64(timestamp)
    }

    function Value(): Record
      reads this
    {
      Record(measurementName, tagSet, fieldSet, timestamp)
    }

    /** `LineProtocol::default`: the placeholder name "_", no tags or fields, and the clock's reading `now`. */
    constructor Default(now: int)
      requires IsI64(now)
      ensures Valid() && Value() == Record("_", [], [], now)
    {
      measurementName := "_";
      tagSet := [];
      fieldSet := [];
      timestamp := now;
    }

    /** `LineProtocol::new`: the given name, no tags or fields, and the clock's reading `now`. */
    constructor New(name: string, now: int)
      requires IsI64(now)
      ensures Valid() && Value() == Record(name, [], [], now)
    {
      measurementName := name;
      tagSet := [];
      fieldSet := [];
      timestamp := now;
    }

    /** `tag`: insert (or overwrite) a tag when key and value are both non-empty; nothing else changes. */
    method Tag(key: string, value: string)
      requires Valid()
      modifies this
      ensures Valid()
      ensures tagSet == GuardedInsert(old(tagSet), key, value)
      ensures measurementName == old(measurementName) && fieldSet == old(fieldSet) && timestamp == old(timestamp)
    {
      GuardedInsertStored(tagSet, key, value);
      if |key| > 0 && |value| > 0 {
        tagSet := Insert(tagSet, key, value);
      }
    }

    /** `field`: insert (or overwrite) a field when key and value are both non-empty; nothing else changes. */
    method Field(key: string, value: string)
      requires Valid()
      modifies this
      ensures Valid()
      ensures fieldSet == GuardedInsert(old(fieldSet), key, value)
      ensures measurementName == old(measurementName) && tagSet == old(tagSet) && timestamp == old(timestamp)
    {
      GuardedInsertStored(fieldSet, key, value);
      if |key| > 0 && |value| > 0 {
        fieldSet := Insert(fieldSet, key, value);
      }
    }

    /** The loop of `parse` over the tag segments: `tag(k, v)` for each segment `k=v`, split at its first '='. */
    method AddTags(segs: seq<string>)
      requires Valid()
      modifies this
      ensures Valid()
      ensures tagSet == AddSegments(old(tagSet), segs)
      ensures measurementName == old(measurementName) && fieldSet == old(fieldSet) && timestamp == old(timestamp)
    {
      var i := 0;
      while i < |segs|
        invariant 0 <= i <= |segs|
        invariant Valid()
        invariant tagSet == AddSegments(old(tagSet), segs[..i])
        invariant measurementName == old(measurementName) && fieldSet == old(fieldSet) && timestamp == old(timestamp)
      {
        AddSegmentsStep(old(tagSet), segs, i);
        match SplitOnce(segs[i], '=') {
          case Some((k, v)) => Tag(k, v);
          case None =>
        }
        i := i + 1;
      }
      assert segs[..i] == segs;
    }

    /** The loop of `parse` over the field segments: `field(k, v)` for each segment `k=v`, split at its first '='. */
    method AddFields(segs: seq<string>)
      requires Valid()
      modifies this
      ensures Valid()
      ensures fieldSet == AddSegments(old(fieldSet), segs)
      ensures measurementName == old(measurementName) && tagSet == old(tagSet) && timestamp == old(timestamp)
    {
      var i := 0;
      while i < |segs|
        invariant 0 <= i <= |segs|
        invariant Valid()
        invariant fieldSet == AddSegments(old(fieldSet), segs[..i])
        invariant measurementName == old(measurementName) && tagSet == old(tagSet) && timestamp == old(timestamp)
      {
        AddSegmentsStep(old(fieldSet), segs, i);
        match SplitOnce(segs[i], '=') {
          case Some((k, v)) => Field(k, v);
          case None =>
        }
        i := i + 1;
      }
      assert segs[..i] == segs;
    }

    /** `serialize`: appends the name, each tag, each field and the timestamp to a buffer. */
    method Serialize() returns (r: Result<string, string>)
      ensures r == SerializeRecord(Value())
    {
      var buf := measurementName;
      if tagSet != [] {
        var i := 0;
        while i < |tagSet|
          invariant 0 <= i <= |tagSet|
          invariant buf == Join([measurementName] + EntryTexts(tagSet[..i]), ',')
        {
          var (k, v) := tagSet[i];
          JoinSnoc([measurementName] + EntryTexts(tagSet[..i]), k + "=" + v, ',');
          assert [measurementName] + EntryTexts(tagSet[..i + 1])
              == [measurementName] + EntryTexts(tagSet[..i]) + [k + "=" + v];
          buf := buf + "," + k + "=" + v;
          i := i + 1;
        }
        assert tagSet[..i] == tagSet;
      }
      var head := buf;
      assert head == Join([measurementName] + EntryTexts(tagSet), ',');

      if fieldSet == [] {
        return Err(NoFieldKeyMessage);
      }

      var count := 0;
      var j := 0;
      while j < |fieldSet|
        invariant 0 <= j <= |fieldSet| && count == j
        invariant j == 0 ==> buf == head
        invariant j > 0 ==> buf == head + " " + Join(EntryTexts(fieldSet[..j]), ',')
      {
        var (k, v) := fieldSet[j];
        if count > 0 {
          buf := buf + ",";
          JoinSnoc(EntryTexts(fieldSet[..j]), k + "=" + v, ',');
        } else {
          buf := buf + " ";
        }
        assert EntryTexts(fieldSet[..j + 1]) == EntryTexts(fieldSet[..j]) + [k + "=" + v];
        buf := buf + k + "=" + v;
        count := count + 1;
        j := j + 1;
      }
      assert fieldSet[..j] == fieldSet;
      buf := buf + " " + FormatI64(timestamp);
      return Ok(buf);
    }

    /**
     * `parse`: starts from `LineProtocol::default` (reading the clock as
     * `now`) and fills in name, tags, fields and timestamp token by token.
     * The result does not depend on `now`.
     */
    static method Parse(line: string, now: int) returns (r: Result<LineProtocol, ParseError>)
      requires IsI64(now)
      ensures r.Err? ==> ParseLine(line) == Err(r.error)
      ensures r.Ok? ==> fresh(r.value) && r.value.Valid() && ParseLine(line) == Ok(r.value.Value())
    {
      if line == [] {
        return Err(EmptyInput);
      }
      var proto := new LineProtocol.Default(now);
      var words := Words(line);
      ParseErrors(line);

      // measurement name and tags
      if |words| == 0 {
        return Err(BrokenLine);
      }
      var mn := words[0];
      var tags := if ',' in mn then Split(mn, ',') else [mn];
      proto.measurementName := tags[0];
      proto.AddTags(tags[1..]);

      // field set
      if |words| < 2 {
        return Err(NoFieldKey);
      }
      var fk := words[1];
      var fkeys := if ',' in fk then Split(fk, ',') else [fk];
      proto.AddFields(fkeys);

      // timestamp
      if |words| < 3 {
        return Err(NoTimestamp);
      }
      match ParseI64(words[2]) {
        case None =>
          return Err(MalformedTimestamp);
        case Some(ts) =>
          proto.timestamp := ts;
          ParseLineOk(line, ts);
      }
      return Ok(proto);
    }
  }
}
