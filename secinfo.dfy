/** The refresh run of the `secinfo` command: it looks every roster entry up, splits the
    roster into active and inactive streamers, ranks both, rewrites the two CSV rosters and
    splices the rendered rows into the two page templates. */
module Secinfo {
  import opened Text
  import opened Streamers
  import opened Markdown
  import opened CsvStore

  /** What the channel page lookup yields: the numeric channel id and the display name. */
  datatype Profile = Profile(id: string, displayName: string)

  /** The network behind `GetUID` and `GetStats`, as two total functions. `profile` answers
      a lookup by name. None stands for the three early returns: the request failed, reading
      the body failed, or the page does not contain the name. Every other page is a Some
      answer, including one whose PageInfo does not parse or has no id; that id is the
      formatted nil `%!f(<nil>)`. `series`
      answers a statistics request by id and name with the first dataset's buckets (None:
      the request or its decoding failed). */
  datatype Oracle = Oracle(
    profile: string -> Option<Profile>,
    series: (string, string) -> Option<seq<real>>)

  /** `GetUID`: a found profile sets the id and replaces the name with the displayed one;
      a failed lookup leaves the record as it was. */
  function Resolved(s: Streamer, o: Oracle): (r: Streamer)
    ensures r == s.(sullyGnomeId := r.sullyGnomeId, name := r.name)
    ensures o.profile(s.name).None? ==> r == s
  {
    match o.profile(s.name)
    case None => s
    case Some(p) => s.(sullyGnomeId := p.id, name := p.displayName)
  }

  /** `GetStats` as a value: only the hours change, and only when the record has an id and
      the statistics request succeeds. */
  function Measured(s: Streamer, o: Oracle): (r: Streamer)
    ensures r == s.(thirtyDayStats := r.thirtyDayStats)
    ensures s.sullyGnomeId == "" ==> r == s
  {
    if s.sullyGnomeId == "" then s
    else
      match o.series(s.sullyGnomeId, s.name)
      case None => s
      case Some(d) => s.(thirtyDayStats := WeightedSum(d))
  }

  /** `GetStats`: the hours become the weighted sum of the buckets. */
  method GetStats(s: Streamer, o: Oracle) returns (r: Streamer)
    ensures r == Measured(s, o)
  {
    if s.sullyGnomeId == "" {
      return s;
    }
    var d := o.series(s.sullyGnomeId, s.name);
    if d.None? {
      return s;
    }
    var sum := Score(d.value);
    r := s.(thirtyDayStats := sum);
  }

  /** One roster entry after the run's lookups: resolved, and measured only when it has an id. */
  function Looked(s: Streamer, o: Oracle): (r: Streamer)
    ensures r.sullyGnomeId == "" ==> r == Resolved(s, o)
    ensures r.sullyGnomeId == Resolved(s, o).sullyGnomeId
  {
    var r := Resolved(s, o);
    if r.sullyGnomeId == "" then r else Measured(r, o)
  }

  function LookedAll(list: seq<Streamer>, o: Oracle): (r: seq<Streamer>)
    ensures |r| == |list|
    ensures forall k :: 0 <= k < |list| ==> r[k] == Looked(list[k], o)
  {
    if list == [] then []
    else LookedAll(list[..|list| - 1], o) + [Looked(list[|list| - 1], o)]
  }

  /** The routing test of the refresh loop: an id and a positive score. */
  predicate Active(s: Streamer) {
    s.sullyGnomeId != "" && s.thirtyDayStats > 0.0
  }

  /** The entries whose `Active` verdict is `active`, in their order. */
  function Keep(t: seq<Streamer>, active: bool): seq<Streamer> {
    if t == [] then []
    else Keep(t[..|t| - 1], active) + (if Active(t[|t| - 1]) == active then [t[|t| - 1]] else [])
  }

  datatype Routed = Routed(active: seq<Streamer>, inactive: seq<Streamer>)

  /** Where the refresh loop sends the entries of streamers.csv. */
  function Route(list: seq<Streamer>, o: Oracle): Routed {
    var t := LookedAll(list, o);
    Routed(Keep(t, true), Keep(t, false))
  }

  lemma RouteStep(list: seq<Streamer>, o: Oracle, i: nat)
    requires i < |list|
    ensures var x := Looked(list[i], o);
      Route(list[..i + 1], o).active
        == Route(list[..i], o).active + (if Active(x) then [x] else [])
      && Route(list[..i + 1], o).inactive
        == Route(list[..i], o).inactive + (if Active(x) then [] else [x])
  {
    assert list[..i + 1][..i] == list[..i];
    var t := LookedAll(list[..i + 1], o);
    assert t[..|t| - 1] == LookedAll(list[..i], o);
  }

  /** The two sides of the split share out the records, nothing lost or duplicated. */
  lemma {:induction false} KeepShares(t: seq<Streamer>)
    ensures |Keep(t, true)| + |Keep(t, false)| == |t|
    ensures multiset(Keep(t, true)) + multiset(Keep(t, false)) == multiset(t)
  {
    if t != [] {
      var init, last := t[..|t| - 1], t[|t| - 1];
      KeepShares(init);
      assert t == init + [last];
    }
  }

  /** A record is kept on the side of its `Active` verdict, and only there. */
  lemma {:induction false} KeepMembers(t: seq<Streamer>, active: bool)
    ensures forall x :: x in Keep(t, active) <==> x in t && Active(x) == active
  {
    if t != [] {
      var init, last := t[..|t| - 1], t[|t| - 1];
      KeepMembers(init, active);
      assert t == init + [last];
    }
  }

  /** Routing conserves the roster: every looked-up record lands on exactly one side, so
      the two lists together have as many records as streamers.csv (no dedup). */
  lemma RouteConserves(list: seq<Streamer>, o: Oracle)
    ensures |Route(list, o).active| + |Route(list, o).inactive| == |list|
    ensures multiset(Route(list, o).active) + multiset(Route(list, o).inactive)
      == multiset(LookedAll(list, o))
  {
    KeepShares(LookedAll(list, o));
  }

  /** The active side holds exactly the looked-up records with an id and a positive score;
      the inactive side holds the others: those left without an id (never scored) and those
      that scored nothing. */
  lemma RouteSides(list: seq<Streamer>, o: Oracle)
    ensures forall x :: x in Route(list, o).active <==>
      x in LookedAll(list, o) && x.sullyGnomeId != "" && x.thirtyDayStats > 0.0
    ensures forall x :: x in Route(list, o).inactive <==>
      x in LookedAll(list, o) && (x.sullyGnomeId == "" || x.thirtyDayStats <= 0.0)
  {
    KeepMembers(LookedAll(list, o), true);
    KeepMembers(LookedAll(list, o), false);
  }

  /** Record `k` of streamers.csv, once looked up, is on the side its id and score choose;
      without an id it is the resolved record, with its hours as they were. */
  lemma RouteEach(list: seq<Streamer>, o: Oracle, k: nat)
    requires k < |list|
    ensures var x := Looked(list[k], o);
      (x in Route(list, o).active <==> Active(x))
      && (x in Route(list, o).inactive <==> !Active(x))
      && (x.sullyGnomeId == "" ==> x == Resolved(list[k], o)
                                   && x.thirtyDayStats == list[k].thirtyDayStats)
  {
    RouteSides(list, o);
    assert LookedAll(list, o)[k] == Looked(list[k], o);
  }

  /** Every record of the inactive roster, flagged as carried over. */
  function Carried(list: seq<Streamer>): (r: seq<Streamer>)
    ensures |r| == |list|
    ensures forall k :: 0 <= k < |list| ==> r[k] == list[k].(wasInactive := true)
  {
    if list == [] then []
    else Carried(list[..|list| - 1]) + [list[|list| - 1].(wasInactive := true)]
  }

  /** The flag is not part of a CSV line: the carried records write as they were read. */
  lemma {:induction false} CarriedKept(list: seq<Streamer>)
    ensures Bare(Carried(list)) == Bare(list)
  {
    if list != [] {
      var init, last := list[..|list| - 1], list[|list| - 1];
      CarriedKept(init);
      assert Carried(list)[..|list| - 1] == Carried(init);
    }
  }

  /** The loop that sets `WasInactive` on every loaded inactive record, in place. */
  method MarkCarried(l: StreamerList)
    modifies l
    ensures l.streamers == Carried(old(l.streamers))
  {
    ghost var input := l.streamers;
    for i := 0 to |l.streamers|
      invariant |l.streamers| == |input|
      invariant l.streamers == Carried(input[..i]) + input[i..]
    {
      CarriedStep(input, i);
      l.streamers := l.streamers[i := l.streamers[i].(wasInactive := true)];
    }
    assert input[..|input|] == input;
  }

  lemma CarriedStep(input: seq<Streamer>, i: nat)
    requires i < |input|
    ensures var t := Carried(input[..i]) + input[i..];
      Carried(input[..i + 1]) + input[i + 1..] == t[i := t[i].(wasInactive := true)]
  {
    assert input[..i + 1][..i] == input[..i];
  }

  /** The merge loop: each streamers.csv record is looked up; no id sends it to the inactive
      list unscored, otherwise its score decides; the carried records follow, unchanged. */
  method Reconcile(roster: seq<Streamer>, carried: seq<Streamer>, o: Oracle)
    returns (active: seq<Streamer>, inactive: seq<Streamer>)
    ensures active == Route(roster, o).active
    ensures inactive == Route(roster, o).inactive + carried
  {
    active, inactive := [], [];
    for i := 0 to |roster|
      invariant active == Route(roster[..i], o).active
      invariant inactive == Route(roster[..i], o).inactive
    {
      RouteStep(roster, o, i);
      var s := Resolved(roster[i], o);
      if s.sullyGnomeId == "" {
        inactive := inactive + [s];
      } else {
        s := GetStats(s, o);
        if s.thirtyDayStats > 0.0 {
          active := active + [s];
        } else {
          inactive := inactive + [s];
        }
      }
    }
    assert roster[..|roster|] == roster;
    ghost var routed := inactive;
    for i := 0 to |carried|
      invariant inactive == routed + carried[..i]
    {
      assert carried[..i + 1] == carried[..i] + [carried[i]];
      inactive := inactive + [carried[i]];
    }
    assert carried[..|carried|] == carried;
  }

  /** The table delimiter rows after which the two pages receive their rows. */
  const IndexAnchor: string := "---: | --- | :--- | :---\n"
  const InactiveAnchor: string := "--: | ---\n"

  /** The template up to and including the first `anchor`, then `rows`, then the rest. */
  function Splice(template: string, anchor: string, rows: string): string
    requires Contains(template, anchor)
  {
    var i := Index(template, anchor) + |anchor|;
    template[..i] + rows + template[i..]
  }

  /** The page is the template with the rows inserted right after the first anchor: taking
      the rows out gives the template back, and the first anchor of the page is where it
      was in the template, so the rows follow it directly. */
  lemma SpliceSpec(template: string, anchor: string, rows: string)
    requires Contains(template, anchor)
    ensures var p := Index(template, anchor);
      var i := p + |anchor|;
      var page := Splice(template, anchor, rows);
      0 <= p && i <= |template| && template[p..i] == anchor
      && |page| == |template| + |rows|
      && page[..i] == template[..i] && page[i..i + |rows|] == rows
      && page[..i] + page[i + |rows|..] == template
      && Index(page, anchor) == p
  {
    var p := Index(template, anchor);
    var i := p + |anchor|;
    var page := Splice(template, anchor, rows);
    assert page[..i] == template[..i];
    assert page[i..i + |rows|] == rows;
    assert page[i + |rows|..] == template[i..];
    assert template[..i] + template[i..] == template;
    assert InfixAt(page, anchor, p) by {
      assert page[p..i] == template[p..i];
    }
    forall j | 0 <= j < p
      ensures !InfixAt(page, anchor, j)
    {
      assert !InfixAt(template, anchor, j);
      if j + |anchor| <= |page| {
        assert page[j..j + |anchor|] == template[j..j + |anchor|];
      }
    }
    var r := Index(page, anchor);
    assert Contains(page, anchor) by {
      assert 0 <= p <= |page| - |anchor| && InfixAt(page, anchor, p);
    }
    assert r <= p;
  }

  /** With no rows the page is the template, byte for byte. */
  lemma SpliceNothing(template: string, anchor: string)
    requires Contains(template, anchor)
    ensures Splice(template, anchor, []) == template
  {
    var i := Index(template, anchor) + |anchor|;
    assert template[..i] + [] + template[i..] == template;
  }

  /** The row of an active streamer: online, with the language of the old page, when the
      old page shows it online. */
  function IndexRow(s: Streamer, oldIndex: string): string {
    var lang := Presence(Split(oldIndex, '\n'), s.name);
    if lang.Some? then ReturnMarkdownLine(s.(lang := lang.value), true)
    else ReturnMarkdownLine(s, false)
  }

  function IndexRows(list: seq<Streamer>, oldIndex: string): string {
    if list == [] then []
    else IndexRows(list[..|list| - 1], oldIndex) + IndexRow(list[|list| - 1], oldIndex)
  }

  function InactiveRows(list: seq<Streamer>): string {
    if list == [] then []
    else InactiveRows(list[..|list| - 1]) + ReturnMarkdownLine(list[|list| - 1], false)
  }

  /** Solver helper: concatenation regrouped in one step; it models nothing. */
  lemma Associative(a: string, b: string, c: string)
    ensures (a + b) + c == a + (b + c)
  {
  }

  lemma IndexRowsStep(list: seq<Streamer>, oldIndex: string, k: nat, row: string)
    requires k < |list| && row == IndexRow(list[k], oldIndex)
    ensures IndexRows(list[..k + 1], oldIndex) == IndexRows(list[..k], oldIndex) + row
  {
    assert list[..k + 1][..k] == list[..k];
  }

  lemma InactiveRowsStep(list: seq<Streamer>, k: nat, row: string)
    requires k < |list| && row == ReturnMarkdownLine(list[k], false)
    ensures InactiveRows(list[..k + 1]) == InactiveRows(list[..k]) + row
  {
    assert list[..k + 1][..k] == list[..k];
  }

  /** index.md: the active rows in the order of the list. */
  function IndexPage(template: string, oldIndex: string, active: seq<Streamer>): string
    requires Contains(template, IndexAnchor)
  {
    Splice(template, IndexAnchor, IndexRows(active, oldIndex))
  }

  /** inactive.md: the inactive rows in case-insensitive name order, never online. */
  function InactivePage(template: string, inactive: seq<Streamer>): string
    requires Contains(template, InactiveAnchor)
  {
    Splice(template, InactiveAnchor, InactiveRows(Ranked(ByName, inactive)))
  }

  /** The index render loop: each row is rendered after `OnlineNow` has read the old page. */
  method RenderIndex(template: string, oldIndex: string, active: seq<Streamer>) returns (page: string)
    requires Contains(template, IndexAnchor)
    ensures page == IndexPage(template, oldIndex, active)
  {
    var i := Index(template, IndexAnchor) + |IndexAnchor|;
    page := template[..i];
    ghost var head := page;
    for k := 0 to |active|
      invariant page == head + IndexRows(active[..k], oldIndex)
    {
      var online, s := OnlineNow(active[k], oldIndex);
      var row := ReturnMarkdownLine(s, online);
      IndexRowsStep(active, oldIndex, k, row);
      Associative(head, IndexRows(active[..k], oldIndex), row);
      page := page + row;
    }
    assert active[..|active|] == active;
    page := page + template[i..];
  }

  /** The inactive render loop over a name-sorted copy of the list. */
  method RenderInactive(template: string, inactive: seq<Streamer>) returns (page: string)
    requires Contains(template, InactiveAnchor)
    ensures page == InactivePage(template, inactive)
  {
    var byName := new StreamerList(inactive);
    byName.SortByName();
    var sorted := byName.streamers;
    var i := Index(template, InactiveAnchor) + |InactiveAnchor|;
    page := template[..i];
    ghost var head := page;
    for k := 0 to |sorted|
      invariant page == head + InactiveRows(sorted[..k])
    {
      var row := ReturnMarkdownLine(sorted[k], false);
      InactiveRowsStep(sorted, k, row);
      Associative(head, InactiveRows(sorted[..k]), row);
      page := page + row;
    }
    assert sorted[..|sorted|] == sorted;
    page := page + template[i..];
  }

  /** The files the run reads and writes. */
  const StreamersCsv: string := "streamers.csv"
  const InactiveCsv: string := "inactive_streamers.csv"
  const IndexMd: string := "index.md"
  const InactiveMd: string := "inactive.md"
  const IndexTemplate: string := "templates/index.tmpl.md"
  const InactiveTemplate: string := "templates/inactive.tmpl.md"

  lemma PathsDistinct()
    ensures |StreamersCsv| == 13 && |InactiveCsv| == 22 && |IndexMd| == 8
    ensures |InactiveMd| == 11 && |IndexTemplate| == 23 && |InactiveTemplate| == 26
  {
  }

  /** Both templates are there and hold their anchors. */
  predicate Ready(files: map<string, string>) {
    IndexTemplate in files && Contains(files[IndexTemplate], IndexAnchor)
    && InactiveTemplate in files && Contains(files[InactiveTemplate], InactiveAnchor)
  }

  /** The records of streamers.csv; a file that does not parse counts as empty. */
  function Roster(files: map<string, string>): seq<Streamer>
    requires StreamersCsv in files
  {
    ParseStreamers(FileInfo(false, files[StreamersCsv])).list
  }

  /** The records of inactive_streamers.csv; a missing file counts as empty. */
  function Backlog(files: map<string, string>): seq<Streamer> {
    if InactiveCsv in files then ParseStreamers(FileInfo(false, files[InactiveCsv])).list else []
  }

  /** The old index.md; a missing one reads as empty. */
  function OldIndex(files: map<string, string>): string {
    if IndexMd in files then files[IndexMd] else ""
  }

  /** The four files a run writes, from the ranked lists. */
  function Written(files: map<string, string>, active: seq<Streamer>, inactive: seq<Streamer>)
    : map<string, string>
    requires Ready(files)
  {
    files[StreamersCsv := CsvContent(Ranked(ByName, active))]
         [InactiveCsv := CsvContent(Ranked(ByName, inactive))]
         [IndexMd := IndexPage(files[IndexTemplate], OldIndex(files), active)]
         [InactiveMd := InactivePage(files[InactiveTemplate], inactive)]
  }

  /** What a completed run promises: both lists ranked by hours and made of the routed
      records (the carried ones on the inactive side), and the files written from them. */
  ghost predicate Refreshed(before: map<string, string>, o: Oracle,
                            active: seq<Streamer>, inactive: seq<Streamer>,
                            after: map<string, string>)
    requires StreamersCsv in before && Ready(before)
  {
    var routed := Route(Roster(before), o);
    SortedBy(ByStats, active) && multiset(active) == multiset(routed.active)
    && SortedBy(ByStats, inactive)
    && multiset(inactive) == multiset(routed.inactive + Carried(Backlog(before)))
    && after == Written(before, active, inactive)
  }

  /** Loads both rosters: a parse error leaves a list empty, a missing inactive roster is
      an empty one, and every inactive record is flagged as carried over. */
  method LoadRosters(fs: FileSystem) returns (roster: seq<Streamer>, backlog: seq<Streamer>)
    requires StreamersCsv in fs.files
    ensures roster == Roster(fs.files)
    ensures backlog == Carried(Backlog(fs.files))
  {
    roster := ParseStreamers(FileInfo(false, fs.files[StreamersCsv])).list;
    backlog := [];
    if InactiveCsv in fs.files {
      var loaded := new StreamerList(ParseStreamers(FileInfo(false, fs.files[InactiveCsv])).list);
      MarkCarried(loaded);
      backlog := loaded.streamers;
    }
  }

  /** Ranks a list by hours through `StreamerList.Sort`. */
  method RankByStats(list: seq<Streamer>) returns (ranked: seq<Streamer>)
    ensures SortedBy(ByStats, ranked)
    ensures multiset(ranked) == multiset(list)
  {
    var l := new StreamerList(list);
    l.Sort();
    ranked := l.streamers;
  }

  /** Writes both rosters name-sorted and renders both pages, in the order of `main`. */
  method Publish(fs: FileSystem, active: seq<Streamer>, inactive: seq<Streamer>)
    requires Ready(fs.files)
    modifies fs
    ensures fs.files == Written(old(fs.files), active, inactive)
  {
    ghost var before := fs.files;
    PathsDistinct();
    fs.WriteCSV(active, StreamersCsv);
    fs.WriteCSV(inactive, InactiveCsv);
    ghost var csvWritten := fs.files;
    assert csvWritten[IndexTemplate] == before[IndexTemplate];
    assert csvWritten[InactiveTemplate] == before[InactiveTemplate];

    var oldIndex := if IndexMd in fs.files then fs.files[IndexMd] else "";
    assert oldIndex == OldIndex(before);
    var page := RenderIndex(fs.files[IndexTemplate], oldIndex, active);
    fs.WriteFile(IndexMd, page);
    assert fs.files[InactiveTemplate] == before[InactiveTemplate];
    page := RenderInactive(fs.files[InactiveTemplate], inactive);
    fs.WriteFile(InactiveMd, page);
  }

  /** `main` without the replay branch: a missing streamers.csv ends the run before anything
      is written; otherwise the rosters are merged, ranked and written, and both pages are
      rendered. */
  method Refresh(fs: FileSystem, o: Oracle)
    returns (exited: bool, active: seq<Streamer>, inactive: seq<Streamer>)
    requires StreamersCsv in fs.files ==> Ready(fs.files)
    modifies fs
    ensures exited <==> StreamersCsv !in old(fs.files)
    ensures exited ==> fs.files == old(fs.files)
    ensures !exited ==> Refreshed(old(fs.files), o, active, inactive, fs.files)
  {
    if StreamersCsv !in fs.files {
      return true, [], [];
    }
    var roster, backlog := LoadRosters(fs);
    var merged, retired := Reconcile(roster, backlog, o);
    active := RankByStats(merged);
    inactive := RankByStats(retired);
    Publish(fs, active, inactive);
    exited := false;
  }

  /** A run conserves records: the ranked lists together hold as many as the two rosters,
      the active ones all have an id and a positive score, and every carried record is on
      the inactive side. */
  lemma RunConserves(before: map<string, string>, o: Oracle,
                     active: seq<Streamer>, inactive: seq<Streamer>, after: map<string, string>)
    requires StreamersCsv in before && Ready(before)
    requires Refreshed(before, o, active, inactive, after)
    ensures |active| + |inactive| == |Roster(before)| + |Backlog(before)|
    ensures forall x :: x in active ==> Active(x)
    ensures forall x :: x in Carried(Backlog(before)) ==> x in inactive
  {
    var routed := Route(Roster(before), o);
    RouteConserves(Roster(before), o);
    RouteSides(Roster(before), o);
    ListsConserve(routed, Carried(Backlog(before)), active, inactive);
  }

  /** Permutations of the routed lists keep their sizes and their members. */
  lemma ListsConserve(routed: Routed, carried: seq<Streamer>,
                      active: seq<Streamer>, inactive: seq<Streamer>)
    requires multiset(active) == multiset(routed.active)
    requires multiset(inactive) == multiset(routed.inactive + carried)
    requires forall x :: x in routed.active ==> Active(x)
    ensures |active| + |inactive| == |routed.active| + |routed.inactive| + |carried|
    ensures forall x :: x in active ==> Active(x)
    ensures forall x :: x in carried ==> x in inactive
  {
    assert |active| == |multiset(active)| == |routed.active|;
    assert |inactive| == |multiset(inactive)| == |routed.inactive + carried|;
    forall x | x in active
      ensures Active(x)
    {
      assert x in multiset(active);
    }
    forall x | x in carried
      ensures x in inactive
    {
      assert x in multiset(routed.inactive + carried);
    }
  }

  /** A run over empty rosters writes two empty rosters and leaves both pages equal to
      their templates. */
  lemma EmptyRun(before: map<string, string>, o: Oracle,
                 active: seq<Streamer>, inactive: seq<Streamer>, after: map<string, string>)
    requires StreamersCsv in before && Ready(before)
    requires before[StreamersCsv] == [] && (InactiveCsv in before ==> before[InactiveCsv] == [])
    requires Refreshed(before, o, active, inactive, after)
    ensures active == [] && inactive == []
    ensures after[StreamersCsv] == [] && after[InactiveCsv] == []
    ensures after[IndexMd] == before[IndexTemplate]
    ensures after[InactiveMd] == before[InactiveTemplate]
  {
    EmptyRosters(before);
    assert |active| == |multiset(active)| == 0;
    assert |inactive| == |multiset(inactive)| == 0;
    EmptyWritten(before);
  }

  lemma EmptyRosters(before: map<string, string>)
    requires StreamersCsv in before && before[StreamersCsv] == []
    requires InactiveCsv in before ==> before[InactiveCsv] == []
    ensures Roster(before) == [] && Backlog(before) == []
  {
  }

  /** Writing two empty lists: empty CSV files and the bare templates. */
  lemma EmptyWritten(files: map<string, string>)
    requires Ready(files)
    ensures var w := Written(files, [], []);
      w[StreamersCsv] == [] && w[InactiveCsv] == []
      && w[IndexMd] == files[IndexTemplate] && w[InactiveMd] == files[InactiveTemplate]
  {
    PathsDistinct();
    SpliceNothing(files[IndexTemplate], IndexAnchor);
    SpliceNothing(files[InactiveTemplate], InactiveAnchor);
  }
}
