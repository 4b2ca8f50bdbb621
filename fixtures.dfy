/** The rosters and lists of the package tests, and what the model says about them. */
module Fixtures {
  import opened Text
  import opened Streamers
  import opened CsvStore
  import opened Markdown
  import opened Secinfo

  /** A byte that can appear in a fixture name or url: a letter, a digit or one of `_:/.`;
      never a comma, a line break or white space. */
  predicate TokenChar(c: char) {
    ('a' <= c <= 'z') || ('A' <= c <= 'Z') || ('0' <= c <= '9')
    || c == '_' || c == ':' || c == '/' || c == '.'
  }

  predicate Token(s: string) {
    forall i :: 0 <= i < |s| ==> TokenChar(s[i])
  }

  lemma TokenConcat(a: string, b: string)
    requires Token(a) && Token(b)
    ensures Token(a + b)
  {
    assert forall i :: |a| <= i < |a + b| ==> (a + b)[i] == b[i - |a|];
  }

  /** A roster line: the name, a comma, the url. */
  function Line(name: string, ytUrl: string): string {
    name + [','] + ytUrl
  }

  /** A line made of a non-empty token name and a token url is one line, its own trim, and
      reads back as the record of that name and url. */
  lemma LineOfTokens(name: string, ytUrl: string)
    requires name != [] && Token(name) && Token(ytUrl)
    ensures var line := Line(name, ytUrl);
      '\n' !in line && line != [] && TrimSpace(line) == line
      && ',' in line && FieldsOf(line) == Record(name, ytUrl)
  {
    var line := Line(name, ytUrl);
    assert line[|name|] == ',';
    assert line[0] == name[0] && TokenChar(name[0]);
    AsciiLead(line);
    if ytUrl == [] {
      assert line[|line| - 1] == ',';
    } else {
      assert line[|line| - 1] == ytUrl[|ytUrl| - 1] && TokenChar(ytUrl[|ytUrl| - 1]);
    }
    AsciiTail(line);
    TrimSpaceOfTrimmed(line);
    IndexAfter(name, ',', ytUrl);
    assert line[..|name|] == name && line[|name| + 1..] == ytUrl;
  }

  /** Lines that are their own non-empty trim all survive the blank-line filter. */
  lemma {:induction false} FilledKeeps(ls: seq<string>)
    requires forall k :: 0 <= k < |ls| ==> ls[k] != [] && TrimSpace(ls[k]) == ls[k]
    ensures Filled(ls) == ls
  {
    if ls != [] {
      var init, last := ls[..|ls| - 1], ls[|ls| - 1];
      forall k | 0 <= k < |init|
        ensures init[k] != [] && TrimSpace(init[k]) == init[k]
      {
        assert init[k] == ls[k];
      }
      FilledKeeps(init);
      assert init + [last] == ls;
      FilledSnoc(init, last);
    }
  }

  lemma FilledSnoc(init: seq<string>, last: string)
    requires last != [] && TrimSpace(last) == last
    ensures Filled(init + [last]) == Filled(init) + [last]
  {
    assert (init + [last])[..|init|] == init;
  }

  /** The lines of a roster of token names and urls, one record per line. */
  function Lines(names: seq<string>, urls: seq<string>): (ls: seq<string>)
    requires |names| == |urls|
    ensures |ls| == |names|
  {
    seq(|names|, k requires 0 <= k < |names| => Line(names[k], urls[k]))
  }

  predicate Tokens(names: seq<string>, urls: seq<string>) {
    |names| == |urls|
    && (forall k :: 0 <= k < |names| ==> names[k] != [] && Token(names[k]))
    && (forall k :: 0 <= k < |urls| ==> Token(urls[k]))
  }

  /** Token lines are one line each, their own trim, and read back as their records. */
  lemma TokenLines(names: seq<string>, urls: seq<string>)
    requires Tokens(names, urls)
    ensures var ls := Lines(names, urls);
      forall k :: 0 <= k < |ls| ==>
        '\n' !in ls[k] && ls[k] != [] && TrimSpace(ls[k]) == ls[k]
        && ',' in ls[k] && FieldsOf(ls[k]) == Record(names[k], urls[k])
  {
    forall k | 0 <= k < |names|
      ensures var line := Line(names[k], urls[k]);
        '\n' !in line && line != [] && TrimSpace(line) == line
        && ',' in line && FieldsOf(line) == Record(names[k], urls[k])
    {
      LineOfTokens(names[k], urls[k]);
    }
  }

  /** A blank line among trimmed non-blank lines is all the filter drops. */
  lemma FilledWithBlank(head: seq<string>, tail: seq<string>)
    requires Filled(head) == head && Filled(tail) == tail
    ensures Filled(head + [" "] + tail) == head + tail
  {
    FilledAppend(head + [" "], tail);
    FilledAppend(head, [" "]);
    FilledBlank();
    calc {
      Filled(head + [" "] + tail);
      Filled(head + [" "]) + Filled(tail);
      Filled(head) + Filled([" "]) + Filled(tail);
      head + [] + tail;
      head + tail;
    }
  }

  lemma FilledBlank()
    ensures Filled([" "]) == []
  {
    assert TrimSpace(" ") == [] by {
      assert " "[1..] == [];
    }
    assert [" "][..0] == [];
  }

  /** Trimmed lines that all hold a comma scan completely, one record per line. */
  lemma FieldsOfCommaLines(ts: seq<string>, recs: seq<Streamer>)
    requires |ts| == |recs|
    requires forall k :: 0 <= k < |ts| ==> ',' in ts[k] && FieldsOf(ts[k]) == recs[k]
    ensures Fields(ts) == Scan(recs, true)
  {
    FieldsCount(ts);
    FieldsRecords(ts);
    var r := Fields(ts);
    assert r.complete && |r.records| == |recs|;
    assert r.records == recs;
  }

  /** Token lines hold no line break. */
  lemma TokenLinesUnbroken(names: seq<string>, urls: seq<string>)
    requires Tokens(names, urls)
    ensures forall k :: 0 <= k < |names| ==> '\n' !in Lines(names, urls)[k]
  {
    TokenLines(names, urls);
  }

  /** Token lines all survive the blank-line filter. */
  lemma TokenLinesFilled(names: seq<string>, urls: seq<string>)
    requires Tokens(names, urls)
    ensures Filled(Lines(names, urls)) == Lines(names, urls)
  {
    TokenLines(names, urls);
    FilledKeeps(Lines(names, urls));
  }

  /** Token lines scan to their records, in order. */
  lemma TokenLinesScan(names: seq<string>, urls: seq<string>)
    requires Tokens(names, urls)
    ensures Fields(Lines(names, urls))
      == Scan(seq(|names|, k requires 0 <= k < |names| => Record(names[k], urls[k])), true)
  {
    TokenLines(names, urls);
    FieldsOfCommaLines(Lines(names, urls),
      seq(|names|, k requires 0 <= k < |names| => Record(names[k], urls[k])));
  }

  /** A roster of token lines with one blank line among them reads back as one record per
      token line, in order, without error. */
  lemma ParseWithBlank(names: seq<string>, urls: seq<string>, i: nat)
    requires Tokens(names, urls) && i <= |names|
    ensures var data := Join(Lines(names[..i], urls[..i]) + [" "] + Lines(names[i..], urls[i..]), '\n');
      ParseCSV(data) == Parsed(seq(|names|, k requires 0 <= k < |names| => Record(names[k], urls[k])), None)
  {
    var head, tail := Lines(names[..i], urls[..i]), Lines(names[i..], urls[i..]);
    var lines := head + [" "] + tail;
    assert head + tail == Lines(names, urls);
    TokenLinesUnbroken(names, urls);
    forall k | 0 <= k < |lines|
      ensures '\n' !in lines[k]
    {
      if k < i {
        assert lines[k] == Lines(names, urls)[k];
      } else if k > i {
        assert lines[k] == Lines(names, urls)[k - 1];
      }
    }
    SplitJoin(lines, '\n');
    TokenLinesFilled(names[..i], urls[..i]);
    TokenLinesFilled(names[i..], urls[i..]);
    FilledWithBlank(head, tail);
    TokenLinesScan(names, urls);
  }

  /** The channel url prefix of the fixture's YouTube links. */
  const Channel: string := "https://www.youtube.com" + "/channel/"

  const FixtureNames: seq<string> := ["fakeus3r", "0reoByte", "0xBufu", "0xCardinal",
    "0xChance", "0xj3lly", "0xRy4nG", "antisyphon", "Security_Live"]

  const FixtureUrls: seq<string> := ["", "", "", "", "", "",
    Channel + "UCQWQlNq07_Rumy2i69dpqBw",
    Channel + "UCkFKiCm7dD0gsB4jqIdCuRQ",
    Channel + "UCMDy1HAPNcpl8zVTK1NfMqw"]

  /** The test roster streamers.csv: nine `name,url` lines with a line holding a single
      space after the second, joined by line breaks, with no final line break. */
  function FixtureCsv(): string {
    Join(Lines(FixtureNames[..2], FixtureUrls[..2]) + [" "]
         + Lines(FixtureNames[2..], FixtureUrls[2..]), '\n')
  }

  lemma ChannelToken()
    ensures Token(Channel)
  {
    TokenConcat("https://www.youtube.com", "/channel/");
  }

  lemma FixtureNameTokens()
    ensures forall k :: 0 <= k < |FixtureNames| ==> FixtureNames[k] != [] && Token(FixtureNames[k])
  {
    assert Token("fakeus3r") && Token("0reoByte") && Token("0xBufu");
    assert Token("0xCardinal") && Token("0xChance") && Token("0xj3lly");
    assert Token("0xRy4nG") && Token("antisyphon") && Token("Security_Live");
  }

  lemma ChannelIdTokens()
    ensures Token("UCQWQlNq07_Rumy2i69dpqBw") && Token("UCkFKiCm7dD0gsB4jqIdCuRQ")
    ensures Token("UCMDy1HAPNcpl8zVTK1NfMqw")
  {
  }

  lemma FixtureUrlTokens()
    ensures forall k :: 0 <= k < |FixtureUrls| ==> Token(FixtureUrls[k])
  {
    ChannelToken();
    ChannelIdTokens();
    TokenConcat(Channel, "UCQWQlNq07_Rumy2i69dpqBw");
    TokenConcat(Channel, "UCkFKiCm7dD0gsB4jqIdCuRQ");
    TokenConcat(Channel, "UCMDy1HAPNcpl8zVTK1NfMqw");
  }

  lemma FixtureTokens()
    ensures Tokens(FixtureNames, FixtureUrls)
  {
    FixtureNameTokens();
    FixtureUrlTokens();
  }

  /** What `TestParseStreamersPass` checks: nine records (the blank line is skipped), the
      second named `0reoByte`, the seventh with its whole channel url. */
  lemma ParseStreamersPass()
    ensures var r := ParseStreamers(FileInfo(false, FixtureCsv()));
      r.err == None && |r.list| == 9 && r.list[1].name == "0reoByte"
      && r.list[6].ytUrl == Channel + "UCQWQlNq07_Rumy2i69dpqBw"
  {
    FixtureTokens();
    ParseWithBlank(FixtureNames, FixtureUrls, 2);
    assert FixtureNames[1] == "0reoByte";
    var lines := Lines(FixtureNames[..2], FixtureUrls[..2]) + [" "]
                 + Lines(FixtureNames[2..], FixtureUrls[2..]);
    assert FixtureCsv() != [] by {
      assert |lines| == 10;
      assert FixtureCsv() == Join(lines[..9], '\n') + ['\n'] + lines[9];
    }
  }

  lemma TextLines()
    ensures Split("text\ntext2", '\n') == ["text", "text2"]
  {
    var lines := ["text", "text2"];
    assert "text\ntext2" == Join(lines, '\n');
    SplitJoin(lines, '\n');
  }

  /** A line holding only a no-break space (U+00A0, bytes C2 A0) is blank to
      `strings.TrimSpace`, so the parse skips it like an empty line. */
  lemma NoBreakSpaceLine()
    ensures ParseCSV("a,b\n\U{C2}\U{A0}") == Parsed([Record("a", "b")], None)
  {
    var lines := ["a,b", "\U{C2}\U{A0}"];
    NoBreakSpaceLines();
    NoBreakSpaceTrims();
    RecordLineAB();
    BlankAfterRecord("a,b\n\U{C2}\U{A0}", lines);
  }

  lemma NoBreakSpaceLines()
    ensures Split("a,b\n\U{C2}\U{A0}", '\n') == ["a,b", "\U{C2}\U{A0}"]
  {
    var lines := ["a,b", "\U{C2}\U{A0}"];
    assert "a,b\n\U{C2}\U{A0}" == Join(lines, '\n');
    SplitJoin(lines, '\n');
  }

  lemma NoBreakSpaceTrims()
    ensures TrimSpace("\U{C2}\U{A0}") == []
  {
    var s := "\U{C2}\U{A0}";
    assert LeadSpace(s) == 2 && s[2..] == [];
  }

  lemma RecordLineAB()
    ensures TrimSpace("a,b") == "a,b" && ',' in "a,b" && FieldsOf("a,b") == Record("a", "b")
  {
    TrimSpaceOfTrimmed("a,b");
    IndexAfter("a", ',', "b");
  }

  /** A record line followed by a line that trims to nothing parses to that one record. */
  lemma BlankAfterRecord(data: string, lines: seq<string>)
    requires Split(data, '\n') == lines && |lines| == 2
    requires TrimSpace(lines[0]) == lines[0] && ',' in lines[0] && TrimSpace(lines[1]) == []
    ensures ParseCSV(data) == Parsed([FieldsOf(lines[0])], None)
  {
    assert lines[..0] == [];
    DecodeStep(lines, 0);
    DecodeStep(lines, 1);
    assert lines[..2] == lines;
  }

  /** What `TestParseStreamersFail` checks: an empty file is "not a file or is empty", and
      a non-blank line without a comma fails the parse quoting the whole content; both
      give an empty list. */
  lemma ParseStreamersFail()
    ensures ParseStreamers(FileInfo(false, "")) == Parsed([], Some(NotAFile))
    ensures ParseStreamers(FileInfo(false, "text\ntext2"))
      == Parsed([], Some(NotCsvPrefix + "text\ntext2"))
  {
    TextFileFails();
  }

  lemma TextFileFails()
    ensures ParseCSV("text\ntext2") == Parsed([], Some(NotCsvPrefix + "text\ntext2"))
  {
    TextLines();
    TextTrim();
    ParseStops("text\ntext2", ["text", "text2"]);
  }

  lemma TextTrim()
    ensures TrimSpace("text") == "text" && ',' !in "text"
  {
    TrimSpaceOfTrimmed("text");
  }

  /** Data whose first line is not blank and has no comma parses to nothing and an error. */
  lemma ParseStops(data: string, lines: seq<string>)
    requires Split(data, '\n') == lines && |lines| >= 1
    requires lines[0] != [] && TrimSpace(lines[0]) == lines[0] && ',' !in lines[0]
    ensures ParseCSV(data) == Parsed([], Some(NotCsvPrefix + data))
  {
    FirstLineStops(lines);
  }

  /** A first line that is not blank and has no comma stops the scan with no records. */
  lemma FirstLineStops(lines: seq<string>)
    requires |lines| >= 1 && TrimSpace(lines[0]) != [] && ',' !in TrimSpace(lines[0])
    ensures Decode(lines) == Scan([], false)
  {
    assert lines[..0] == [];
    DecodeStep(lines, 0);
    DecodeStuck(lines, 1, |lines|);
    assert lines[..|lines|] == lines;
  }

  /** A record of the command test: a name and hours, every other field at its zero value. */
  function Named(name: string, hours: real): Streamer {
    Streamer(name, "", "", hours, "", false)
  }

  /** The rows of three records, in order. */
  lemma RowsOfThree(x: Streamer, y: Streamer, z: Streamer, oldIndex: string)
    ensures IndexRows([x, y, z], oldIndex)
      == IndexRow(x, oldIndex) + IndexRow(y, oldIndex) + IndexRow(z, oldIndex)
    ensures InactiveRows([x, y, z])
      == ReturnMarkdownLine(x, false) + ReturnMarkdownLine(y, false) + ReturnMarkdownLine(z, false)
  {
    IndexRowsOfThree(x, y, z, oldIndex);
    InactiveRowsOfThree(x, y, z);
  }

  lemma IndexRowsOfThree(x: Streamer, y: Streamer, z: Streamer, oldIndex: string)
    ensures IndexRows([x, y, z], oldIndex)
      == IndexRow(x, oldIndex) + IndexRow(y, oldIndex) + IndexRow(z, oldIndex)
  {
    var t := [x, y, z];
    assert t[..2] == [x, y] && [x, y][..1] == [x] && [x][..0] == [];
    assert IndexRows([x], oldIndex) == IndexRow(x, oldIndex);
    assert IndexRows([x, y], oldIndex) == IndexRow(x, oldIndex) + IndexRow(y, oldIndex);
  }

  lemma InactiveRowsOfThree(x: Streamer, y: Streamer, z: Streamer)
    ensures InactiveRows([x, y, z])
      == ReturnMarkdownLine(x, false) + ReturnMarkdownLine(y, false) + ReturnMarkdownLine(z, false)
  {
    var t := [x, y, z];
    assert t[..2] == [x, y] && [x, y][..1] == [x] && [x][..0] == [];
    assert InactiveRows([x]) == ReturnMarkdownLine(x, false);
  }

  /** The command test's active list `Alpha` 2, `bravo` 10, `Charlie` 5: whatever order the
      unstable sort picks among sorted permutations, it is `bravo, Charlie, Alpha`, and
      index.md lists the rows in that order. */
  lemma ActiveOrder(ranked: seq<Streamer>, oldIndex: string)
    requires SortedBy(ByStats, ranked)
    requires multiset(ranked)
      == multiset([Named("Alpha", 2.0), Named("bravo", 10.0), Named("Charlie", 5.0)])
    ensures ranked == [Named("bravo", 10.0), Named("Charlie", 5.0), Named("Alpha", 2.0)]
    ensures IndexRows(ranked, oldIndex) == IndexRow(Named("bravo", 10.0), oldIndex)
      + IndexRow(Named("Charlie", 5.0), oldIndex) + IndexRow(Named("Alpha", 2.0), oldIndex)
  {
    var target := [Named("bravo", 10.0), Named("Charlie", 5.0), Named("Alpha", 2.0)];
    HoursInOrder();
    assert multiset(target)
      == multiset([Named("Alpha", 2.0), Named("bravo", 10.0), Named("Charlie", 5.0)]);
    SortedUnique(ByStats, target, ranked);
    IndexRowsOfThree(target[0], target[1], target[2], oldIndex);
  }

  lemma HoursInOrder()
    ensures var t := [Named("bravo", 10.0), Named("Charlie", 5.0), Named("Alpha", 2.0)];
      SortedBy(ByStats, t) && NoTies(ByStats, t)
  {
    var t := [Named("bravo", 10.0), Named("Charlie", 5.0), Named("Alpha", 2.0)];
    assert Precedes(ByStats, t[0], t[1]) && Precedes(ByStats, t[1], t[2]);
    assert Precedes(ByStats, t[0], t[2]);
    PrecedesAsymmetric(ByStats, t[0], t[1]);
    PrecedesAsymmetric(ByStats, t[1], t[2]);
    PrecedesAsymmetric(ByStats, t[0], t[2]);
  }

  lemma NamesInOrder()
    ensures var t := [Named("alpha", 0.0), Named("Echo", 0.0), Named("Zulu", 0.0)];
      SortedBy(ByName, t) && NoTies(ByName, t)
  {
    var t := [Named("alpha", 0.0), Named("Echo", 0.0), Named("Zulu", 0.0)];
    assert ToLower("alpha")[0] == 'a' && ToLower("Echo")[0] == 'e' && ToLower("Zulu")[0] == 'z';
    assert Precedes(ByName, t[0], t[1]) && Precedes(ByName, t[1], t[2]);
    assert Precedes(ByName, t[0], t[2]);
    PrecedesAsymmetric(ByName, t[0], t[1]);
    PrecedesAsymmetric(ByName, t[1], t[2]);
    PrecedesAsymmetric(ByName, t[0], t[2]);
  }

  /** The reference sort of a permutation of a sorted list without ties is that list. */
  lemma RankedIs(o: Order, target: seq<Streamer>, s: seq<Streamer>)
    requires SortedBy(o, target) && NoTies(o, target)
    requires multiset(s) == multiset(target)
    ensures Ranked(o, s) == target
  {
    RankedSorted(o, s);
    RankedPermutation(o, s);
    SortedUnique(o, target, Ranked(o, s));
  }

  /** The command test's inactive list `Zulu`, `alpha`, `Echo` (all without hours): however
      the hours sort leaves it, inactive.md lists `alpha, Echo, Zulu`. */
  lemma InactiveOrder(sorted: seq<Streamer>)
    requires multiset(sorted)
      == multiset([Named("Zulu", 0.0), Named("alpha", 0.0), Named("Echo", 0.0)])
    ensures Ranked(ByName, sorted) == [Named("alpha", 0.0), Named("Echo", 0.0), Named("Zulu", 0.0)]
    ensures InactiveRows(Ranked(ByName, sorted)) == ReturnMarkdownLine(Named("alpha", 0.0), false)
      + ReturnMarkdownLine(Named("Echo", 0.0), false) + ReturnMarkdownLine(Named("Zulu", 0.0), false)
  {
    var target := [Named("alpha", 0.0), Named("Echo", 0.0), Named("Zulu", 0.0)];
    NamesInOrder();
    assert multiset(target)
      == multiset([Named("Zulu", 0.0), Named("alpha", 0.0), Named("Echo", 0.0)]);
    RankedIs(ByName, target, sorted);
    RowsOfThree(target[0], target[1], target[2], "");
  }
}
