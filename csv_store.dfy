/** The roster files: one `name,url` record per line, no quoting and no escaping
    (`parseCSVData`, `buildCSVContent`, `readCSVFile`, `ParseStreamers` and the
    read-modify-write operations over a file system). */
module CsvStore {
  import opened Text
  import opened Streamers

  const NotCsvPrefix: string := "file is not a CSV file: Text: "
  const NotAFile: string := "file is not a file or is empty"

  /** A list of records with the error the Go function returns beside it. */
  datatype Parsed = Parsed(list: seq<Streamer>, err: Option<string>)

  /** The records read from a run of lines, and whether every non-blank line held a comma. */
  datatype Scan = Scan(records: seq<Streamer>, complete: bool)

  /** Where the first `c` of `s` is: `strings.Index` on a one-byte string that occurs. */
  lemma FirstChar(s: string, c: char)
    requires c in s
    ensures var i := Index(s, [c]); 0 <= i < |s| && s[i] == c && c !in s[..i]
  {
    var k :| 0 <= k < |s| && s[k] == c;
    assert InfixAt(s, [c], k);
    var i := Index(s, [c]);
    assert s[i..i + 1] == [c];
    forall j | 0 <= j < i
      ensures s[..i][j] != c
    {
      assert !InfixAt(s, [c], j);
      assert s[j..j + 1] == [s[j]];
    }
  }

  /** `strings.SplitN(line, ",", 2)` on a line that holds a comma: the record named by the
      text before the first comma, with everything after it as its url. */
  function FieldsOf(t: string): Streamer
    requires ',' in t
  {
    FirstChar(t, ',');
    var i := Index(t, [',']);
    Record(t[..i], t[i + 1..])
  }

  /** The name holds no comma, and the name, a comma and the url make up the line. */
  lemma FieldsOfSpec(t: string)
    requires ',' in t
    ensures var r := FieldsOf(t);
      ',' !in r.name && r.name + [','] + r.ytUrl == t && r == Record(r.name, r.ytUrl)
  {
    FirstChar(t, ',');
    var i := Index(t, [',']);
    assert t == t[..i] + [','] + t[i + 1..];
  }

  /** The non-blank lines, trimmed, in their order. */
  function Filled(lines: seq<string>): (ts: seq<string>)
    ensures |ts| <= |lines|
  {
    if lines == [] then []
    else
      var t := TrimSpace(lines[|lines| - 1]);
      Filled(lines[..|lines| - 1]) + (if t == [] then [] else [t])
  }

  /** The records of trimmed non-blank lines, up to the first line without a comma. */
  function Fields(ts: seq<string>): (r: Scan)
    ensures |r.records| <= |ts|
  {
    if ts == [] then Scan([], true)
    else
      var p, t := Fields(ts[..|ts| - 1]), ts[|ts| - 1];
      if !p.complete then p
      else if ',' !in t then Scan(p.records, false)
      else Scan(p.records + [FieldsOf(t)], true)
  }

  /** The loop of `parseCSVData` over the lines: blank lines (after trimming) are skipped,
      and the first non-blank line without a comma ends the scan unsuccessfully. */
  function Decode(lines: seq<string>): Scan {
    Fields(Filled(lines))
  }

  /** A scan fails exactly when some non-blank line has no comma; then it has read one
      record for each non-blank line before that one, and otherwise one for every line. */
  lemma {:induction false} FieldsCount(ts: seq<string>)
    ensures var r := Fields(ts);
      (r.complete <==> |r.records| == |ts|)
      && (!r.complete ==> ',' !in ts[|r.records|])
  {
    if ts != [] {
      FieldsCount(ts[..|ts| - 1]);
    }
  }

  /** Each record is named by the text before the first comma of its line, in order. */
  lemma {:induction false} FieldsRecords(ts: seq<string>)
    ensures var r := Fields(ts);
      forall k :: 0 <= k < |r.records| ==> ',' in ts[k] && r.records[k] == FieldsOf(ts[k])
  {
    if ts != [] {
      var init, t := ts[..|ts| - 1], ts[|ts| - 1];
      FieldsRecords(init);
      FieldsCount(init);
      var p, r := Fields(init), Fields(ts);
      forall k | 0 <= k < |r.records|
        ensures ',' in ts[k] && r.records[k] == FieldsOf(ts[k])
      {
        if k < |p.records| {
          assert ts[k] == init[k];
          assert r.records[k] == p.records[k];
        } else {
          assert p.complete && ',' in t && r.records == p.records + [FieldsOf(t)];
          assert k == |init|;
        }
      }
    }
  }

  lemma {:induction false} FilledAppend(a: seq<string>, b: seq<string>)
    ensures Filled(a + b) == Filled(a) + Filled(b)
    decreases |b|
  {
    if b == [] {
      assert a + b == a;
    } else {
      var init, z := b[..|b| - 1], b[|b| - 1];
      var t := TrimSpace(z);
      var last: seq<string> := if t == [] then [] else [t];
      assert (a + b)[..|a + b| - 1] == a + init;
      assert (a + b)[|a + b| - 1] == z;
      FilledAppend(a, init);
      calc {
        Filled(a + b);
        Filled(a + init) + last;
        Filled(a) + Filled(init) + last;
        Filled(a) + (Filled(init) + last);
      }
    }
  }

  /** Once a line without a comma has stopped the scan, later lines change nothing. */
  lemma {:induction false} DecodeStuck(lines: seq<string>, i: nat, j: nat)
    requires i <= j <= |lines| && !Decode(lines[..i]).complete
    ensures Decode(lines[..j]) == Decode(lines[..i])
    decreases j
  {
    if j > i {
      DecodeStuck(lines, i, j - 1);
      assert lines[..j][..j - 1] == lines[..j - 1];
      var ts, t := Filled(lines[..j - 1]), TrimSpace(lines[j - 1]);
      if t == [] {
        assert ts + [] == ts;
      } else {
        assert (ts + [t])[..|ts|] == ts;
      }
    }
  }

  /** One step of the scan: a blank line is skipped, a line without a comma stops it, and
      any other line adds its record. */
  lemma DecodeStep(lines: seq<string>, i: nat)
    requires i < |lines| && Decode(lines[..i]).complete
    ensures var t, d, p := TrimSpace(lines[i]), Decode(lines[..i + 1]), Decode(lines[..i]);
      (t == [] ==> d == p)
      && (t != [] && ',' !in t ==> d == Scan(p.records, false))
      && (t != [] && ',' in t ==> d == Scan(p.records + [FieldsOf(t)], true))
  {
    assert lines[..i + 1][..i] == lines[..i];
    var t, ts := TrimSpace(lines[i]), Filled(lines[..i]);
    if t == [] {
      assert ts + [] == ts;
    } else {
      assert (ts + [t])[..|ts|] == ts;
    }
  }

  /** `parseCSVData` as a value: the records and, when a line has no comma, the error
      that quotes the whole input. */
  function ParseCSV(data: string): Parsed {
    var r := Decode(Split(data, '\n'));
    Parsed(r.records, if r.complete then None else Some(NotCsvPrefix + data))
  }

  /** `parseCSVData`: appends one record per non-blank line; on a line without a comma it
      returns the records read so far together with the error. */
  method ParseCSVData(data: string) returns (p: Parsed)
    ensures p == ParseCSV(data)
  {
    var lines := Split(data, '\n');
    var list: seq<Streamer> := [];
    for i := 0 to |lines|
      invariant Decode(lines[..i]) == Scan(list, true)
    {
      DecodeStep(lines, i);
      var line := TrimSpace(lines[i]);
      if line == [] {
        continue;
      }
      if ',' !in line {
        DecodeStuck(lines, i + 1, |lines|);
        assert lines[..|lines|] == lines;
        return Parsed(list, Some(NotCsvPrefix + data));
      }
      FirstChar(line, ',');
      var j := Index(line, [',']);
      list := list + [Record(line[..j], line[j + 1..])];
    }
    assert lines[..|lines|] == lines;
    return Parsed(list, None);
  }

  /** What `parseCSVData` promises: one record per non-blank line, in order, named by the
      text before the line's first comma with everything after it as the url; it fails
      exactly when some non-blank line has no comma, quoting the whole input, and then
      returns the records of the lines before that one. */
  lemma ParseCSVSpec(data: string)
    ensures var ts, p := Filled(Split(data, '\n')), ParseCSV(data);
      (p.err.None? <==> |p.list| == |ts|)
      && (p.err.Some? ==> p.err == Some(NotCsvPrefix + data) && |p.list| < |ts| && ',' !in ts[|p.list|])
      && (forall k :: 0 <= k < |p.list| ==> ',' in ts[k] && p.list[k] == FieldsOf(ts[k]))
  {
    var ts := Filled(Split(data, '\n'));
    FieldsCount(ts);
    FieldsRecords(ts);
  }

  /** What `Stat` tells `ParseStreamers` about a file, and what it holds. */
  datatype FileInfo = FileInfo(isDir: bool, content: string)

  /** `ParseStreamers`: a directory or an empty file is an error, and so is content that
      does not parse; on any error the list is empty, even where the parse had read some
      records. */
  function ParseStreamers(f: FileInfo): (r: Parsed)
    ensures r.err.Some? ==> r.list == []
    ensures f.isDir || f.content == [] ==> r == Parsed([], Some(NotAFile))
    ensures !f.isDir && f.content != [] ==>
      (r.err.None? <==> ParseCSV(f.content).err.None?)
      && (r.err.None? ==> r.list == ParseCSV(f.content).list)
      && (r.err.Some? ==> r.err == ParseCSV(f.content).err)
  {
    if f.isDir || f.content == [] then Parsed([], Some(NotAFile))
    else
      var p := ParseCSV(f.content);
      if p.err.Some? then Parsed([], p.err) else p
  }

  /** The line `buildCSVContent` writes for a record: trimmed name, comma, trimmed url. */
  function CsvLine(s: Streamer): string {
    TrimSpace(s.name) + [','] + TrimSpace(s.ytUrl)
  }

  /** The lines written for a list: one per record whose trimmed name is not empty. */
  function CsvLines(list: seq<Streamer>): (lines: seq<string>)
    ensures |lines| <= |list|
  {
    if list == [] then []
    else
      var s := list[|list| - 1];
      CsvLines(list[..|list| - 1]) + (if TrimSpace(s.name) == [] then [] else [CsvLine(s)])
  }

  /** The file `buildCSVContent` produces: the lines joined by line breaks, none at the end. */
  function CsvContent(list: seq<Streamer>): string {
    Join(CsvLines(list), '\n')
  }

  lemma JoinSnoc(pieces: seq<string>, x: string, sep: char)
    ensures Join(pieces + [x], sep) == if pieces == [] then x else Join(pieces, sep) + [sep] + x
  {
    assert (pieces + [x])[..|pieces|] == pieces;
  }

  /** Appending a line to joined text: a line break first unless the text is empty. */
  lemma JoinGrow(lines: seq<string>, line: string, content: string)
    requires content == Join(lines, '\n') && (content == [] <==> lines == [])
    requires line != []
    ensures Join(lines + [line], '\n') == (if content == [] then [] else content + ['\n']) + line
    ensures lines + [line] != [] && Join(lines + [line], '\n') != []
  {
    JoinSnoc(lines, line, '\n');
  }

  lemma CsvLinesStep(list: seq<Streamer>, i: nat)
    requires i < |list|
    ensures CsvLines(list[..i + 1]) ==
      CsvLines(list[..i]) + (if TrimSpace(list[i].name) == [] then [] else [CsvLine(list[i])])
  {
    assert list[..i + 1][..i] == list[..i];
  }

  /** `buildCSVContent`: grows the file line by line, a line break before every line but
      the first. */
  method BuildCSVContent(list: seq<Streamer>) returns (content: string)
    ensures content == CsvContent(list)
  {
    content := [];
    for i := 0 to |list|
      invariant content == Join(CsvLines(list[..i]), '\n')
      invariant content == [] <==> CsvLines(list[..i]) == []
    {
      CsvLinesStep(list, i);
      var name := TrimSpace(list[i].name);
      if name == [] {
        assert CsvLines(list[..i]) + [] == CsvLines(list[..i]);
        continue;
      }
      var line := name + [','] + TrimSpace(list[i].ytUrl);
      JoinGrow(CsvLines(list[..i]), line, content);
      if |content| > 0 {
        content := content + ['\n'];
      }
      content := content + line;
    }
    assert list[..|list|] == list;
  }

  /** A record that survives writing and reading back unchanged: its name is trimmed, not
      empty and free of commas and line breaks; its url is trimmed and free of line breaks. */
  predicate Safe(s: Streamer) {
    s.name != [] && TrimSpace(s.name) == s.name && ',' !in s.name && '\n' !in s.name
    && TrimSpace(s.ytUrl) == s.ytUrl && '\n' !in s.ytUrl
  }

  /** What a file keeps of a record: its name and url. */
  function Bare(list: seq<Streamer>): (r: seq<Streamer>)
    ensures |r| == |list|
  {
    if list == [] then []
    else Bare(list[..|list| - 1]) + [Record(list[|list| - 1].name, list[|list| - 1].ytUrl)]
  }

  /** The line of a safe record reads back as that record. */
  lemma SafeLine(s: Streamer)
    requires Safe(s)
    ensures var line := CsvLine(s);
      line == s.name + [','] + s.ytUrl && '\n' !in line
      && TrimSpace(line) == line && ',' in line && FieldsOf(line) == Record(s.name, s.ytUrl)
  {
    var line := s.name + [','] + s.ytUrl;
    TrimSpaceSpec(s.name);
    TrimSpaceSpec(s.ytUrl);
    assert line == s.name + ([','] + s.ytUrl);
    LeadSpaceConcat(s.name, [','] + s.ytUrl);
    if s.ytUrl == [] {
      AsciiTail(line);
    } else {
      TailSpaceConcat(s.name + [','], s.ytUrl);
    }
    TrimSpaceOfTrimmed(line);
    assert line[|s.name|] == ',';
    IndexAfter(s.name, ',', s.ytUrl);
    assert line[..|s.name|] == s.name && line[|s.name| + 1..] == s.ytUrl;
  }

  lemma {:induction false} SafeLinesShape(list: seq<Streamer>)
    requires forall k :: 0 <= k < |list| ==> Safe(list[k])
    ensures var lines := CsvLines(list);
      |lines| == |list| && forall k :: 0 <= k < |lines| ==> lines[k] == CsvLine(list[k])
  {
    if list != [] {
      SafeLinesShape(list[..|list| - 1]);
    }
  }

  /** The lines of safe records are their own trimmed non-blank lines and scan back to the
      records' names and urls. */
  lemma {:induction false} SafeLines(list: seq<Streamer>)
    requires forall k :: 0 <= k < |list| ==> Safe(list[k])
    ensures Filled(CsvLines(list)) == CsvLines(list) && Fields(CsvLines(list)) == Scan(Bare(list), true)
  {
    if list != [] {
      var init, s := list[..|list| - 1], list[|list| - 1];
      SafeLines(init);
      SafeLine(s);
      var lines := CsvLines(list);
      assert lines == CsvLines(init) + [CsvLine(s)];
      assert lines[..|lines| - 1] == CsvLines(init);
      assert lines[|lines| - 1] == CsvLine(s);
    }
  }

  /** Reading back what `buildCSVContent` wrote for safe records yields their names and urls,
      in the same order, without error. */
  lemma BuildParseRoundTrip(list: seq<Streamer>)
    requires forall k :: 0 <= k < |list| ==> Safe(list[k])
    ensures ParseCSV(CsvContent(list)) == Parsed(Bare(list), None)
  {
    SafeLines(list);
    SafeLinesShape(list);
    forall k | 0 <= k < |list|
      ensures '\n' !in CsvLines(list)[k]
    {
      SafeLine(list[k]);
    }
    if list == [] {
      assert Split([], '\n') == [[]];
      assert TrimSpace([]) == [];
      assert Filled([[]]) == Filled([]) + [];
    } else {
      SplitJoin(CsvLines(list), '\n');
    }
  }

  /** `readCSVFile` as a value: a missing or empty file is an empty list, anything else is
      parsed. */
  function ReadCSV(files: map<string, string>, path: string): (p: Parsed)
    ensures path !in files || files[path] == [] ==> p == Parsed([], None)
    ensures path in files && files[path] != [] ==> p == ParseCSV(files[path])
  {
    if path !in files || files[path] == [] then Parsed([], None) else ParseCSV(files[path])
  }

  /** What a file keeps of one record. */
  function Kept(s: Streamer): Streamer {
    Record(s.name, s.ytUrl)
  }

  lemma BareSnoc(t: seq<Streamer>, x: Streamer)
    ensures Bare(t + [x]) == Bare(t) + [Kept(x)]
  {
    assert (t + [x])[..|t|] == t;
  }

  lemma {:induction false} BareIndex(t: seq<Streamer>)
    ensures forall k :: 0 <= k < |t| ==> Bare(t)[k] == Kept(t[k])
  {
    if t != [] {
      BareIndex(t[..|t| - 1]);
    }
  }

  /** Keeping only names and urls commutes with the name order, which reads only names. */
  lemma {:induction false} BareInsert(t: seq<Streamer>, x: Streamer)
    ensures Bare(Insert(ByName, t, x)) == Insert(ByName, Bare(t), Kept(x))
  {
    BareIndex(t);
    if t == [] || !Precedes(ByName, x, t[|t| - 1]) {
      BareSnoc(t, x);
    } else {
      var init, last := t[..|t| - 1], t[|t| - 1];
      BareInsert(init, x);
      BareSnoc(Insert(ByName, init, x), last);
      assert Bare(t)[..|t| - 1] == Bare(init);
    }
  }

  lemma {:induction false} BareRanked(list: seq<Streamer>)
    ensures Bare(Ranked(ByName, list)) == Ranked(ByName, Bare(list))
  {
    if list != [] {
      var init := list[..|list| - 1];
      BareRanked(init);
      BareInsert(Ranked(ByName, init), list[|list| - 1]);
      assert Bare(list)[..|list| - 1] == Bare(init);
      BareIndex(list);
    }
  }

  /** A list made of records as a file yields them is its own `Bare`. */
  lemma {:induction false} BareOfKept(list: seq<Streamer>)
    requires forall k :: 0 <= k < |list| ==> list[k] == Kept(list[k])
    ensures Bare(list) == list
  {
    if list != [] {
      BareOfKept(list[..|list| - 1]);
    }
  }

  /** Every record a parse yields keeps only a name and a url. */
  lemma ParsedKept(data: string)
    ensures Bare(ParseCSV(data).list) == ParseCSV(data).list
  {
    var ts := Filled(Split(data, '\n'));
    FieldsRecords(ts);
    var list := ParseCSV(data).list;
    forall k | 0 <= k < |list|
      ensures list[k] == Kept(list[k])
    {
      FieldsOfSpec(ts[k]);
    }
    BareOfKept(list);
  }

  lemma SafeRanked(list: seq<Streamer>)
    requires forall k :: 0 <= k < |list| ==> Safe(list[k])
    ensures forall k :: 0 <= k < |list| ==> Safe(Ranked(ByName, list)[k])
  {
    RankedPermutation(ByName, list);
    forall k | 0 <= k < |list|
      ensures Safe(Ranked(ByName, list)[k])
    {
      var x := Ranked(ByName, list)[k];
      assert x in multiset(Ranked(ByName, list));
      assert x in list;
    }
  }

  /** `WriteCSVWithFS` then `readCSVFile` on the same path: the names and urls of the list,
      in case-insensitive name order, when every record is safe. */
  lemma WriteReadRoundTrip(files: map<string, string>, path: string, list: seq<Streamer>)
    requires forall k :: 0 <= k < |list| ==> Safe(list[k])
    ensures ReadCSV(files[path := CsvContent(Ranked(ByName, list))], path)
         == Parsed(Ranked(ByName, Bare(list)), None)
  {
    var sorted := Ranked(ByName, list);
    var content := CsvContent(sorted);
    SafeRanked(list);
    BuildParseRoundTrip(sorted);
    BareRanked(list);
    var written := files[path := content];
    assert path in written && written[path] == content;
    if content == [] {
      EmptyParse();
    }
  }

  lemma EmptyParse()
    ensures ParseCSV([]) == Parsed([], None)
  {
    assert Split([], '\n') == [[]];
    assert Filled([[]]) == Filled([]) + [];
  }

  /** Matching a name ignoring case does not depend on the order of the list. */
  lemma ContainsPermutation(a: seq<Streamer>, b: seq<Streamer>, s: Streamer)
    requires multiset(a) == multiset(b)
    ensures ContainsStreamer(a, s) == ContainsStreamer(b, s)
  {
    if ContainsStreamer(a, s) {
      var k :| 0 <= k < |a| && EqualFold(a[k].name, s.name);
      assert a[k] in multiset(b);
    }
    if ContainsStreamer(b, s) {
      var k :| 0 <= k < |b| && EqualFold(b[k].name, s.name);
      assert b[k] in multiset(a);
    }
  }

  /** After a successful append of a new name to a file of safe records, the file reads back
      as its old records plus exactly the new one, in name order, and now holds the name,
      so appending it again writes nothing. */
  lemma AppendReadsBack(files: map<string, string>, path: string, s: Streamer)
    requires var r := ReadCSV(files, path);
      r.err.None? && !ContainsStreamer(r.list, s)
      && (forall k :: 0 <= k < |r.list| ==> Safe(r.list[k])) && Safe(s)
    ensures var r := ReadCSV(files, path);
      var back := ReadCSV(files[path := CsvContent(Ranked(ByName, r.list + [s]))], path);
      back == Parsed(Ranked(ByName, r.list + [Kept(s)]), None)
      && SortedBy(ByName, back.list)
      && multiset(back.list) == multiset(r.list) + multiset{Kept(s)}
      && ContainsStreamer(back.list, s)
  {
    var r := ReadCSV(files, path);
    var added := r.list + [s];
    assert forall k :: 0 <= k < |added| ==> Safe(added[k]);
    WriteReadRoundTrip(files, path, added);
    BareSnoc(r.list, s);
    if path in files && files[path] != [] {
      ParsedKept(files[path]);
    }
    AppendedRanked(r.list, s);
  }

  lemma AppendedRanked(list: seq<Streamer>, s: Streamer)
    ensures var back := Ranked(ByName, list + [Kept(s)]);
      SortedBy(ByName, back) && multiset(back) == multiset(list) + multiset{Kept(s)}
      && ContainsStreamer(back, s)
  {
    var back := Ranked(ByName, list + [Kept(s)]);
    RankedSorted(ByName, list + [Kept(s)]);
    RankedPermutation(ByName, list + [Kept(s)]);
    assert EqualFold((list + [Kept(s)])[|list|].name, s.name);
    ContainsPermutation(back, list + [Kept(s)], s);
  }

  /** After a successful removal from a file of safe records, the file reads back as the
      records whose names differ from the removed one, in name order, and none matches. */
  lemma RemoveReadsBack(files: map<string, string>, path: string, s: Streamer)
    requires var r := ReadCSV(files, path);
      r.err.None? && forall k :: 0 <= k < |r.list| ==> Safe(r.list[k])
    ensures var r := ReadCSV(files, path);
      var back := ReadCSV(files[path := CsvContent(Ranked(ByName, Without(r.list, s)))], path);
      back == Parsed(Ranked(ByName, Without(r.list, s)), None)
      && SortedBy(ByName, back.list)
      && multiset(back.list) == multiset(Without(r.list, s))
      && !ContainsStreamer(back.list, s)
  {
    var r := ReadCSV(files, path);
    var kept := Without(r.list, s);
    WithoutSpec(r.list, s);
    assert forall k :: 0 <= k < |kept| ==> kept[k] in r.list;
    assert forall k :: 0 <= k < |kept| ==> Safe(kept[k]);
    WriteReadRoundTrip(files, path, kept);
    if path in files && files[path] != [] {
      ParsedKept(files[path]);
    }
    WithoutKept(r.list, s);
    RankedSorted(ByName, kept);
    RankedPermutation(ByName, kept);
    ContainsPermutation(Ranked(ByName, kept), kept, s);
  }

  lemma {:induction false} WithoutKept(list: seq<Streamer>, s: Streamer)
    requires Bare(list) == list
    ensures Bare(Without(list, s)) == Without(list, s)
  {
    if list != [] {
      var init, last := list[..|list| - 1], list[|list| - 1];
      BareIndex(list);
      assert Bare(init) == Bare(list)[..|list| - 1] == init;
      WithoutKept(init, s);
      if !EqualFold(last.name, s.name) {
        BareSnoc(Without(init, s), last);
        assert Kept(last) == Bare(list)[|list| - 1] == last;
      } else {
        assert Without(init, s) + [] == Without(init, s);
        assert Without(list, s) == Without(init, s);
      }
    }
  }

  /** The file system the roster operations read and write: a map from path to content.
      A missing path is the only read error it has. */
  class FileSystem {
    var files: map<string, string>

    constructor (files: map<string, string>)
      ensures this.files == files
    {
      this.files := files;
    }

    /** `readCSVFile`. */
    method ReadCSVFile(path: string) returns (p: Parsed)
      ensures p == ReadCSV(files, path)
    {
      if path !in files {
        return Parsed([], None);
      }
      var data := files[path];
      if |data| == 0 {
        return Parsed([], None);
      }
      p := ParseCSVData(data);
    }

    /** `WriteCSVWithFS`: writes a name-sorted copy of the list; the caller's list is a
        value and keeps its order. */
    method WriteCSV(list: seq<Streamer>, path: string)
      modifies this
      ensures files == old(files)[path := CsvContent(Ranked(ByName, list))]
    {
      var copy := new StreamerList(list);
      copy.SortByName();
      var content := BuildCSVContent(copy.streamers);
      WriteFile(path, content);
    }

    /** `afero.WriteFile` / `ioutil.WriteFile`: the file at `path` now holds `content`. */
    method WriteFile(path: string, content: string)
      modifies this
      ensures files == old(files)[path := content]
    {
      files := files[path := content];
    }

    /** `AppendToCSVWithFS`: a read error is returned and nothing is written; a name that is
        already there (ignoring case) writes nothing; otherwise the file is rewritten,
        name-sorted, with the record added. */
    method AppendToCSV(path: string, s: Streamer) returns (err: Option<string>)
      modifies this
      ensures var r := ReadCSV(old(files), path);
        err == r.err
        && files == if r.err.Some? || ContainsStreamer(r.list, s) then old(files)
                    else old(files)[path := CsvContent(Ranked(ByName, r.list + [s]))]
    {
      var p := ReadCSVFile(path);
      if p.err.Some? {
        return p.err;
      }
      if ContainsStreamer(p.list, s) {
        return None;
      }
      WriteCSV(p.list + [s], path);
      return None;
    }

    /** `RemoveFromCSVWithFS`: a read error is returned and nothing is written; otherwise
        the file is rewritten, name-sorted, without the entries matching the name. */
    method RemoveFromCSV(path: string, s: Streamer) returns (err: Option<string>)
      modifies this
      ensures var r := ReadCSV(old(files), path);
        err == r.err
        && files == if r.err.Some? then old(files)
                    else old(files)[path := CsvContent(Ranked(ByName, Without(r.list, s)))]
    {
      var p := ReadCSVFile(path);
      if p.err.Some? {
        return p.err;
      }
      var list := RemoveStreamer(p.list, s);
      WriteCSV(list, path);
      return None;
    }
  }
}
