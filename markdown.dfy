/** The table rows of the generated pages and the "online" heuristic that re-reads the
    previously generated page (`OnlineNow`, `ReturnMarkdownLine`). */
module Markdown {
  import opened Text
  import opened Streamers

  /** U+1F7E2 LARGE GREEN CIRCLE as its four UTF-8 bytes F0 9F 9F A2. */
  const OnlineGlyph: string := "\U{F0}\U{9F}\U{9F}\U{A2}"

  /** The Font Awesome icons of the links, `<i class="fab fa-NAME" style="color:#RGB"></i>`. */
  const IconOpen: string := "<i class=\"fab fa-"
  const IconStyle: string := "\" style=\"color:#"
  const IconClose: string := "\"></i>"
  const TwitchIcon: string := IconOpen + "twitch" + IconStyle + "9146FF" + IconClose
  const YouTubeIcon: string := IconOpen + "youtube" + IconStyle + "C00" + IconClose

  /** A line of the old page shows `name` online: it holds the name and the glyph anywhere. */
  predicate MarksOnline(line: string, name: string) {
    Contains(line, name) && Contains(line, OnlineGlyph)
  }

  /** The language tag of the first line that shows `name` online: its last two bytes. */
  function Presence(lines: seq<string>, name: string): (lang: Option<string>)
    ensures lang.Some? <==> exists k :: 0 <= k < |lines| && MarksOnline(lines[k], name)
    ensures lang.Some? ==>
      exists k :: 0 <= k < |lines| && MarksOnline(lines[k], name)
        && (forall j :: 0 <= j < k ==> !MarksOnline(lines[j], name))
        && |lines[k]| >= 2 && lang.value == lines[k][|lines[k]| - 2..]
  {
    if lines == [] then None
    else if MarksOnline(lines[0], name) then Some(lines[0][|lines[0]| - 2..])
    else
      var rest := Presence(lines[1..], name);
      assert forall k :: 0 <= k < |lines| - 1 ==> lines[1..][k] == lines[k + 1];
      rest
  }

  lemma PresenceStep(lines: seq<string>, i: nat, name: string)
    requires i < |lines|
    ensures Presence(lines[i..], name) == if MarksOnline(lines[i], name)
      then Some(lines[i][|lines[i]| - 2..]) else Presence(lines[i + 1..], name)
  {
    assert lines[i..][0] == lines[i];
    assert lines[i..][1..] == lines[i + 1..];
  }

  /** `OnlineNow`: scans the old page line by line; on the first line that shows the
      streamer online it records that line's last two bytes as `lang`. */
  method OnlineNow(s: Streamer, indexText: string) returns (online: bool, updated: Streamer)
    ensures var lang := Presence(Split(indexText, '\n'), s.name);
      online == lang.Some? && updated == (if online then s.(lang := lang.value) else s)
  {
    var lines := Split(indexText, '\n');
    for i := 0 to |lines|
      invariant Presence(lines[i..], s.name) == Presence(lines, s.name)
    {
      PresenceStep(lines, i, s.name);
      if Contains(lines[i], s.name) {
        if Contains(lines[i], OnlineGlyph) {
          var line := lines[i];
          return true, s.(lang := line[|line| - 2..]);
        }
      }
    }
    return false, s;
  }

  /** The separator between two cells of a table row. */
  const Sep: string := " | "
  const TwitchHome: string := "](https://www.twitch.tv/"

  function TwitchLink(name: string): string {
    "[" + TwitchIcon + TwitchHome + name + ")"
  }

  function YouTubeLink(ytUrl: string): string {
    "[" + YouTubeIcon + "](" + ytUrl + ")"
  }

  /** The links cell: the Twitch link, then the YouTube link when there is a url. */
  function Links(name: string, ytUrl: string): string {
    TwitchLink(name) + " &nbsp;" + (if ytUrl != "" then " " + YouTubeLink(ytUrl) else "")
  }

  /** The status cell and separator before the name: none for an inactive streamer. */
  function Lead(s: Streamer, online: bool): string {
    if s.thirtyDayStats <= 0.0 then "" else if online then OnlineGlyph + Sep else "&nbsp;" + Sep
  }

  /** The name cell and the links cell, shared by every kind of row. */
  function Cells(name: string, ytUrl: string): string {
    "`" + name + "`" + Sep + Links(name, ytUrl)
  }

  /** What follows the links: the language cell when online, an empty cell when offline. */
  function Trail(s: Streamer, online: bool): string {
    if s.thirtyDayStats <= 0.0 then "\n" else if online then Sep + s.lang + "\n" else " |" + "\n"
  }

  /** `ReturnMarkdownLine`: an active streamer gets a status cell (the glyph when online,
      `&nbsp;` when not), its name and its links, and when online its language; an inactive
      one gets its name and links only. The Go error result is always nil and is dropped. */
  function ReturnMarkdownLine(s: Streamer, online: bool): (line: string)
    ensures EndsWith(line, "\n")
  {
    var line := Lead(s, online) + Cells(s.name, s.ytUrl) + Trail(s, online);
    Affixes(Lead(s, online) + Cells(s.name, s.ytUrl), Trail(s, online));
    line
  }

  /** Solver helper: a one-step regrouping of sequence concatenation; it models nothing. */
  lemma Affixes(a: string, b: string)
    ensures StartsWith(a + b, a) && EndsWith(a + b, b)
  {
  }

  /** How many times `c` occurs in `s`. */
  function Count(s: string, c: char): nat {
    if s == [] then 0 else Count(s[..|s| - 1], c) + (if s[|s| - 1] == c then 1 else 0)
  }

  lemma {:induction false} CountConcat(a: string, b: string, c: char)
    ensures Count(a + b, c) == Count(a, c) + Count(b, c)
  {
    if b != [] {
      assert (a + b)[..|a + b| - 1] == a + b[..|b| - 1];
      CountConcat(a, b[..|b| - 1], c);
    } else {
      assert a + b == a;
    }
  }

  lemma {:induction false} CountAbsent(s: string, c: char)
    requires c !in s
    ensures Count(s, c) == 0
  {
    if s != [] {
      CountAbsent(s[..|s| - 1], c);
    }
  }

  /** A column separator, a link bracket or a non-ASCII byte: what the fixed parts of a
      row avoid except where the layout puts them. */
  predicate Plain(s: string) {
    '|' !in s && '[' !in s && IsAscii(s)
  }

  lemma PlainConcat(a: string, b: string)
    requires Plain(a) && Plain(b)
    ensures Plain(a + b)
  {
    assert forall i | 0 <= i < |a + b| :: (a + b)[i] == if i < |a| then a[i] else b[i - |a|];
  }

  lemma IconPartsPlain()
    ensures Plain(IconOpen) && Plain(IconStyle) && Plain(IconClose)
  {
    assert Plain("<i class=\"fab fa-");
    assert Plain("\" style=\"color:#");
    assert Plain("\"></i>");
  }

  lemma NamesPlain()
    ensures Plain("twitch") && Plain("9146FF") && Plain("youtube") && Plain("C00")
  {
  }

  lemma IconsPlain()
    ensures Plain(TwitchIcon) && Plain(YouTubeIcon)
  {
    IconPartsPlain();
    NamesPlain();
    PlainConcat(IconOpen, "twitch");
    PlainConcat(IconOpen + "twitch", IconStyle);
    PlainConcat(IconOpen + "twitch" + IconStyle, "9146FF");
    PlainConcat(IconOpen + "twitch" + IconStyle + "9146FF", IconClose);
    PlainConcat(IconOpen, "youtube");
    PlainConcat(IconOpen + "youtube", IconStyle);
    PlainConcat(IconOpen + "youtube" + IconStyle, "C00");
    PlainConcat(IconOpen + "youtube" + IconStyle + "C00", IconClose);
  }

  lemma SepParts()
    ensures Count(Sep, '|') == 1 && Count(" |", '|') == 1
    ensures '[' !in Sep && '[' !in " |"
  {
    assert Sep == [' '] + ['|'] + [' '];
    CountConcat([' '] + ['|'], [' '], '|');
    CountConcat([' '], ['|'], '|');
    assert " |" == [' '] + ['|'];
    CountConcat([' '], ['|'], '|');
  }

  lemma ShortPlain()
    ensures Plain("`") && Plain("\n") && Plain("&nbsp;") && Plain(" &nbsp;") && Plain(" ")
    ensures Plain(")") && Plain("(")
    ensures '|' !in OnlineGlyph && '[' !in OnlineGlyph && '|' !in "](" && '[' !in "]("
  {
  }

  lemma TwitchHomeParts()
    ensures TwitchHome == "]" + "(https://www.twitch.tv/" && Plain("(https://www.twitch.tv/")
  {
  }

  /** Every row has as many column separators as the header of its table: three on the
      index page (status, streamer, links, language) and one on the inactive page, as long
      as the streamer's own fields hold none. */
  lemma RowColumns(s: Streamer, online: bool)
    requires '|' !in s.name && '|' !in s.ytUrl && '|' !in s.lang
    ensures Count(ReturnMarkdownLine(s, online), '|') == if s.thirtyDayStats > 0.0 then 3 else 1
  {
    var lead, cells, trail := Lead(s, online), Cells(s.name, s.ytUrl), Trail(s, online);
    CellsColumns(s.name, s.ytUrl);
    LeadColumns(s, online);
    TrailColumns(s, online);
    CountConcat(lead, cells, '|');
    CountConcat(lead + cells, trail, '|');
  }

  lemma CellsColumns(name: string, ytUrl: string)
    requires '|' !in name && '|' !in ytUrl
    ensures Count(Cells(name, ytUrl), '|') == 1
  {
    SepParts();
    ShortPlain();
    TwitchHomeParts();
    IconsPlain();
    assert '|' !in TwitchLink(name);
    assert '|' !in YouTubeLink(ytUrl);
    assert '|' !in Links(name, ytUrl);
    CountAbsent(Links(name, ytUrl), '|');
    CountAbsent("`" + name + "`", '|');
    CountConcat("`" + name + "`", Sep, '|');
    CountConcat("`" + name + "`" + Sep, Links(name, ytUrl), '|');
  }

  lemma LeadColumns(s: Streamer, online: bool)
    ensures Count(Lead(s, online), '|') == if s.thirtyDayStats > 0.0 then 1 else 0
  {
    SepParts();
    ShortPlain();
    if s.thirtyDayStats <= 0.0 {
      CountAbsent(Lead(s, online), '|');
    } else if online {
      CountAbsent(OnlineGlyph, '|');
      CountConcat(OnlineGlyph, Sep, '|');
    } else {
      CountAbsent("&nbsp;", '|');
      CountConcat("&nbsp;", Sep, '|');
    }
  }

  lemma TrailColumns(s: Streamer, online: bool)
    requires '|' !in s.lang
    ensures Count(Trail(s, online), '|') == if s.thirtyDayStats > 0.0 then 1 else 0
  {
    SepParts();
    ShortPlain();
    if s.thirtyDayStats <= 0.0 {
      CountAbsent(Trail(s, online), '|');
    } else if online {
      CountAbsent(s.lang + "\n", '|');
      assert Trail(s, online) == Sep + (s.lang + "\n");
      CountConcat(Sep, s.lang + "\n", '|');
    } else {
      CountAbsent("\n", '|');
      CountConcat(" |", "\n", '|');
    }
  }

  lemma TwitchLinkBrackets(name: string)
    requires '[' !in name
    ensures Count(TwitchLink(name), '[') == 1
  {
    ShortPlain();
    TwitchHomeParts();
    IconsPlain();
    var rest := TwitchIcon + TwitchHome + name + ")";
    assert TwitchLink(name) == "[" + rest;
    CountAbsent(rest, '[');
    CountConcat("[", rest, '[');
  }

  lemma YouTubeLinkBrackets(ytUrl: string)
    requires '[' !in ytUrl
    ensures Count(YouTubeLink(ytUrl), '[') == 1
  {
    ShortPlain();
    IconsPlain();
    var rest := YouTubeIcon + "](" + ytUrl + ")";
    assert YouTubeLink(ytUrl) == "[" + rest;
    CountAbsent(rest, '[');
    CountConcat("[", rest, '[');
  }

  lemma LinksBrackets(name: string, ytUrl: string)
    requires '[' !in name && '[' !in ytUrl
    ensures Count(Links(name, ytUrl), '[') == if ytUrl != "" then 2 else 1
  {
    ShortPlain();
    TwitchLinkBrackets(name);
    var tail := if ytUrl != "" then " " + YouTubeLink(ytUrl) else "";
    if ytUrl != "" {
      YouTubeLinkBrackets(ytUrl);
      CountConcat(" ", YouTubeLink(ytUrl), '[');
    }
    CountAbsent(" &nbsp;", '[');
    CountConcat(TwitchLink(name), " &nbsp;", '[');
    CountConcat(TwitchLink(name) + " &nbsp;", tail, '[');
  }

  /** Every row links to Twitch, and to YouTube exactly when the streamer has a url: the
      row opens one link per link it shows, as long as the streamer's own fields open none. */
  lemma RowLinks(s: Streamer, online: bool)
    requires '[' !in s.name && '[' !in s.ytUrl && '[' !in s.lang
    ensures Count(ReturnMarkdownLine(s, online), '[') == if s.ytUrl != "" then 2 else 1
  {
    SepParts();
    ShortPlain();
    var lead, cells, trail := Lead(s, online), Cells(s.name, s.ytUrl), Trail(s, online);
    LinksBrackets(s.name, s.ytUrl);
    CountAbsent("`" + s.name + "`" + Sep, '[');
    CountConcat("`" + s.name + "`" + Sep, Links(s.name, s.ytUrl), '[');
    CountAbsent(lead, '[');
    CountAbsent(trail, '[');
    CountConcat(lead, cells, '[');
    CountConcat(lead + cells, trail, '[');
  }

  lemma InfixMiddle(a: string, b: string, c: string)
    ensures Contains(a + b + c, b)
  {
    assert InfixAt(a + b + c, b, |a|) by {
      assert (a + b + c)[|a|..|a| + |b|] == b;
    }
  }

  /** Every row holds the Twitch link of the streamer's name, and the YouTube link of its
      url when it has one. */
  lemma RowLinkText(s: Streamer, online: bool)
    ensures Contains(ReturnMarkdownLine(s, online), TwitchLink(s.name))
    ensures s.ytUrl != "" ==> Contains(ReturnMarkdownLine(s, online), YouTubeLink(s.ytUrl))
  {
    var lead, trail := Lead(s, online), Trail(s, online);
    var head := lead + ("`" + s.name + "`" + Sep);
    var tail := " &nbsp;" + (if s.ytUrl != "" then " " + YouTubeLink(s.ytUrl) else "");
    assert ReturnMarkdownLine(s, online) == head + TwitchLink(s.name) + (tail + trail);
    InfixMiddle(head, TwitchLink(s.name), tail + trail);
    if s.ytUrl != "" {
      var before := head + TwitchLink(s.name) + " &nbsp;" + " ";
      assert ReturnMarkdownLine(s, online) == before + YouTubeLink(s.ytUrl) + trail;
      InfixMiddle(before, YouTubeLink(s.ytUrl), trail);
    }
  }

  lemma OnlineShape(glyph: string, mid: string, name: string, rest: string, lang: string)
    requires |lang| == 2
    ensures var text := glyph + mid + name + rest + lang;
      Contains(text, glyph) && Contains(text, name) && text[|text| - 2..] == lang
  {
    var text := glyph + mid + name + rest + lang;
    assert InfixAt(text, glyph, 0) by {
      assert text[..|glyph|] == glyph;
    }
    assert InfixAt(text, name, |glyph + mid|) by {
      assert text[|glyph + mid|..|glyph + mid| + |name|] == name;
    }
  }

  /** Solver helper: regroups the pieces of a row; it models nothing. */
  lemma Regroup(g: string, sep: string, tick: string, name: string, links: string, lang: string, nl: string)
    ensures (g + sep) + (tick + name + tick + sep + links) + (sep + lang + nl)
         == (g + (sep + tick) + name + (tick + sep + links + sep) + lang) + nl
  {
  }

  /** An online row, read back from the page without its line break, is seen as online
      and yields the language it was written with. */
  lemma RowRescan(s: Streamer)
    requires s.thirtyDayStats > 0.0 && |s.lang| == 2
    ensures var row := ReturnMarkdownLine(s, true);
      var text := row[..|row| - 1];
      MarksOnline(text, s.name) && text[|text| - 2..] == s.lang
      && Presence([text], s.name) == Some(s.lang)
  {
    var row := ReturnMarkdownLine(s, true);
    var links := Links(s.name, s.ytUrl);
    var text := OnlineGlyph + (Sep + "`") + s.name + ("`" + Sep + links + Sep) + s.lang;
    Regroup(OnlineGlyph, Sep, "`", s.name, links, s.lang, "\n");
    assert row == text + "\n";
    assert row[..|row| - 1] == text;
    OnlineShape(OnlineGlyph, Sep + "`", s.name, "`" + Sep + links + Sep, s.lang);
  }

  /** `OnlineNow` stops at the first line that shows the streamer online: lines after
      it do not matter, and lines before it that show nothing are skipped. */
  lemma {:induction false} PresenceAppend(a: seq<string>, b: seq<string>, name: string)
    ensures Presence(a + b, name) == if Presence(a, name).Some? then Presence(a, name) else Presence(b, name)
  {
    if a == [] {
      assert a + b == b;
    } else {
      assert (a + b)[1..] == a[1..] + b;
      PresenceAppend(a[1..], b, name);
    }
  }

  lemma AsciiConcat(a: string, b: string)
    requires IsAscii(a) && IsAscii(b)
    ensures IsAscii(a + b)
  {
    assert forall i | 0 <= i < |a + b| :: (a + b)[i] == if i < |a| then a[i] else b[i - |a|];
  }

  lemma AsciiCells(name: string, ytUrl: string)
    requires IsAscii(name) && IsAscii(ytUrl)
    ensures IsAscii(Cells(name, ytUrl))
  {
    ShortPlain();
    IconsPlain();
    TwitchHomeParts();
    assert IsAscii(Sep) && IsAscii("](");
    AsciiConcat("]", "(https://www.twitch.tv/");
    AsciiConcat("[", TwitchIcon);
    AsciiConcat("[" + TwitchIcon, TwitchHome);
    AsciiConcat("[" + TwitchIcon + TwitchHome, name);
    AsciiConcat("[" + TwitchIcon + TwitchHome + name, ")");
    AsciiConcat(TwitchLink(name), " &nbsp;");
    if ytUrl != "" {
      AsciiConcat("[", YouTubeIcon);
      AsciiConcat("[" + YouTubeIcon, "](");
      AsciiConcat("[" + YouTubeIcon + "](", ytUrl);
      AsciiConcat("[" + YouTubeIcon + "](" + ytUrl, ")");
      AsciiConcat(" ", YouTubeLink(ytUrl));
      AsciiConcat(TwitchLink(name) + " &nbsp;", " " + YouTubeLink(ytUrl));
    } else {
      assert Links(name, ytUrl) == TwitchLink(name) + " &nbsp;";
    }
    AsciiConcat("`", name);
    AsciiConcat("`" + name, "`");
    AsciiConcat("`" + name + "`", Sep);
    AsciiConcat("`" + name + "`" + Sep, Links(name, ytUrl));
  }

  /** A row written offline or for an inactive streamer never reads back as online, for any
      streamer, when the streamer's name and url are ASCII: only the status cell of an online
      row holds the glyph. */
  lemma RowNotOnline(s: Streamer, online: bool, name: string)
    requires !(s.thirtyDayStats > 0.0 && online)
    requires IsAscii(s.name) && IsAscii(s.ytUrl)
    ensures !MarksOnline(ReturnMarkdownLine(s, online), name)
  {
    ShortPlain();
    AsciiCells(s.name, s.ytUrl);
    var lead, cells, trail := Lead(s, online), Cells(s.name, s.ytUrl), Trail(s, online);
    assert IsAscii(Sep) && IsAscii(" |");
    if s.thirtyDayStats > 0.0 {
      AsciiConcat("&nbsp;", Sep);
      AsciiConcat(" |", "\n");
    }
    AsciiConcat(lead, cells);
    AsciiConcat(lead + cells, trail);
    AsciiExcludes(ReturnMarkdownLine(s, online), OnlineGlyph);
  }

  /** The status cell opens a row: the glyph when online, `&nbsp;` when offline, and an
      inactive streamer's row opens with its name cell. */
  lemma RowStart(s: Streamer, online: bool)
    ensures StartsWith(ReturnMarkdownLine(s, online),
                       if s.thirtyDayStats <= 0.0 then "`"
                       else if online then OnlineGlyph + " | `" else "&nbsp; | `")
  {
    var lead, trail := Lead(s, online), Trail(s, online);
    var rest := s.name + "`" + Sep + Links(s.name, s.ytUrl) + trail;
    Regroup2(lead, "`", s.name + "`" + Sep + Links(s.name, s.ytUrl), trail);
    Affixes(lead + "`", rest);
    assert Sep + "`" == " | `";
  }

  /** Solver helper: a one-step regrouping of sequence concatenation; it models nothing. */
  lemma Regroup2(a: string, b: string, c: string, d: string)
    ensures a + (b + c) + d == (a + b) + (c + d)
  {
  }

  /** The language shows only in an online row: any other row is the same whatever the
      streamer's language. */
  lemma RowIgnoresLang(s: Streamer, online: bool, lang: string)
    requires !(s.thirtyDayStats > 0.0 && online)
    ensures ReturnMarkdownLine(s.(lang := lang), online) == ReturnMarkdownLine(s, online)
  {
  }

  /** An online row ends with its language cell. */
  lemma RowEnd(s: Streamer)
    requires s.thirtyDayStats > 0.0
    ensures EndsWith(ReturnMarkdownLine(s, true), Sep + s.lang + "\n")
  {
    Affixes(Lead(s, true) + Cells(s.name, s.ytUrl), Trail(s, true));
  }
}
