/** mergeParserYaml: new proxies or subscriptions merged into an existing configuration, and what the
    merged text means when it is read again. */
module YamlMerge {
  import opened Wrappers
  import opened Text
  import opened YamlText
  import opened YamlDocument
  import opened YamlEmit
  import opened LineEdits
  import opened ProxyNames
  import opened MergedNames
  import opened MergePlan
  import opened YamlFragment
  import opened YamlRoutes
  import opened MergeText
  import opened MergePlacing
  import opened MergeRouting

  /** Failed stands for an error message that is shown; nothing is changed then. */
  datatype MergeResult =
    | Failed
    | NothingToAdd(fragment: Fragment)
    | Merged(text: string, names: seq<string>, skipped: nat, group: string)

  // ---------- applying the plan ----------

  lemma {:induction false} NoInsertions(s: seq<Edit>)
    requires forall e :: e in s ==> e.count == 1
    ensures Insertions(s) == map[]
  {
    if s != [] {
      NoInsertions(s[..|s| - 1]);
    }
  }

  /** The collected edits as one list; the insertions may come in any order. */
  method EditsOf(plan: Plan, ghost n: nat) returns (edits: seq<Edit>)
    requires IsPlan(plan, n)
    ensures Collected(edits, n)
    ensures Insertions(edits) == plan.insertions && Replacements(edits) == Replaced(plan)
  {
    edits := plan.replacements;
    NoInsertions(edits);
    var left := plan.insertions.Keys;
    while left != {}
      invariant left <= plan.insertions.Keys && Collected(edits, n)
      invariant Insertions(edits) == plan.insertions - left && Replacements(edits) == Replaced(plan)
      invariant forall e :: e in edits && e.count == 0 ==> e.at !in left
      decreases |left|
    {
      hide Replaced, Insertions, Replacements;
      var at :| at in left;
      EditAdded(edits, n, at, plan.insertions[at]);
      edits := edits + [Edit(at, plan.insertions[at], 0)];
      left := left - {at};
    }
  }

  lemma EditAdded(edits: seq<Edit>, n: nat, at: nat, block: seq<string>)
    requires Collected(edits, n) && at <= n && forall e :: e in edits && e.count == 0 ==> e.at != at
    ensures Collected(edits + [Edit(at, block, 0)], n)
    ensures Insertions(edits + [Edit(at, block, 0)]) == Insertions(edits)[at := block]
    ensures Replacements(edits + [Edit(at, block, 0)]) == Replacements(edits)
  {
    var e := Edit(at, block, 0);
    assert (edits + [e])[..|edits|] == edits;
    forall i | 0 <= i < |edits| && edits[i].at == at
      ensures edits[i].count == 1
    {
      assert edits[i] in edits && InRange(edits[i], n);
    }
  }

  lemma {:induction false} EditedClean(lines: seq<string>, ins: map<nat, seq<string>>, rep: map<nat, string>, i: nat)
    requires i <= |lines| && IsClean(lines)
    requires (forall q :: q in ins ==> IsClean(ins[q])) && (forall a :: a in rep ==> NoReturn(rep[a]))
    ensures IsClean(EditedFrom(lines, ins, rep, i))
    ensures i < |lines| ==> EditedFrom(lines, ins, rep, i) != []
    decreases |lines| - i
  {
    hide NoReturn;
    if i < |lines| {
      EditedClean(lines, ins, rep, i + 1);
    }
  }

  /** The text of an edited file reads like its lines. */
  lemma MergedText(lines: seq<string>, sections: seq<Section>, L: Layout, plan: Plan)
    requires IsClean(lines) && lines != [] && IsSound(lines, sections, L, plan)
    ensures var edited := Edited(lines, plan.insertions, Replaced(plan));
      && NamesOf(Lines(EndOnce(Join(edited, "\n")))) == NamesOf(edited)
      && IsClean(edited) && edited != []
  {
    hide IsDocument, IsLayout, IsPlan, OnlyReplaceable, SafeInsertion, SafeReplacement, NoReturn, NamesOf, Lines, EndOnce, Join, IsClean;
    EditedClean(lines, plan.insertions, Replaced(plan), 0);
    Reread(Edited(lines, plan.insertions, Replaced(plan)));
  }

  // ---------- merging ----------

  function GroupNames(groups: seq<Group>): seq<string> {
    seq(|groups|, i requires 0 <= i < |groups| => groups[i].name)
  }

  /** What a merge finds and makes on its way. */
  datatype Merge = Merge(file: File, fragment: Fragment, proxies: seq<Proxy>, placed: Plan, plan: Plan)

  /** A file that has been read; existing are the names of all its proxies, groups and providers. */
  datatype File = File(sections: seq<Section>, groups: seq<Group>, existing: seq<string>)

  const NO_MERGE := Merge(File([], [], []), Fragment("", [], 0), [], EMPTY, EMPTY)

  function SectionOf(sections: seq<Section>, key: string): Option<Section> {
    var found := FindSection(sections, key);
    if found.Some? then found.value else None
  }

  ghost predicate IsRead(lines: seq<string>, file: File) {
    && IsDocument(lines, file.sections) && GroupsAre(lines, file.sections, file.groups)
    && NamesOf(lines).Some? && ProviderNames(lines, file.sections).Some?
    && file.existing == NamesOf(lines).value + GroupNames(file.groups) + ProviderNames(lines, file.sections).value
  }

  ghost predicate CannotRead(lines: seq<string>) {
    || (exists i :: 0 <= i < |lines| && IsTopLevel(lines[i]) && KeyLine(lines[i]) == None)
    || NamesOf(lines) == None
    || exists sections ::
         IsDocument(lines, sections) && (GroupsUnreadable(lines, sections) || ProviderNames(lines, sections) == None)
  }

  /** The source has been parsed into new proxies, or providers, with names of their own. */
  ghost predicate HasParsed(mode: SourceMode, source: string, parse: (string, nat) -> Option<Proxy>, isUrl: string -> bool,
                            m: Merge) {
    && AreFresh(m.fragment.names, NameSet(m.file.existing))
    && (mode == Links ==> IsLinkFragment(m.fragment, Entries(source), parse, NameSet(m.file.existing), m.proxies))
    && (mode == Subscriptions ==> IsProviderFragment(m.fragment, Entries(source), isUrl, NameSet(m.file.existing)))
  }

  ghost predicate HasPlaced(lines: seq<string>, mode: SourceMode, m: Merge) {
    IsFragmentPlaced(lines, mode, SectionOf(m.file.sections, SectionKey(mode)), SectionOf(m.file.sections, "proxy-groups"),
                     SectionOf(m.file.sections, "rules"), FragmentBody(m.fragment.text), m.placed)
  }

  ghost predicate HasRouted(lines: seq<string>, mode: SourceMode, requestedGroup: string, m: Merge, group: string) {
    IsRouted(lines, m.file.sections, mode, m.fragment.names, m.file.existing, m.file.groups, requestedGroup, m.placed, m.plan, group)
  }

  /** Two sections of one kind, or the place or the route of the fragment is refused. */
  ghost predicate CannotMerge(lines: seq<string>, mode: SourceMode, requestedGroup: string, m: Merge) {
    || FindSection(m.file.sections, SectionKey(mode)) == None
    || FindSection(m.file.sections, "proxy-groups") == None || FindSection(m.file.sections, "rules") == None
    || PlacingRefused(lines, mode, SectionOf(m.file.sections, SectionKey(mode)))
    || RoutingRefused(lines, m.file.sections, mode, m.fragment.names, m.file.existing, m.file.groups, requestedGroup)
  }

  /** What a merged text means: subscriptions leave the proxy names alone; links add theirs, unless one of
      them cannot be read back. */
  ghost predicate ReadsAsMerged(mode: SourceMode, lines: seq<string>, text: string, names: seq<string>) {
    && NamesOf(lines).Some?
    && NamesOf(Lines(text)) ==
      if mode == Subscriptions then NamesOf(lines)
      else if AllReadable(names) then Some(NamesOf(lines).value + names)
      else None
  }

  const DIRECT := "__direct__"
  const CREATE := "__create__"

  /** The first select group of a name. */
  ghost predicate IsFirstSelect(groups: seq<Group>, name: string, k: nat) {
    && k < |groups| && IsSelect(groups[k], name) && forall j :: 0 <= j < k ==> !IsSelect(groups[j], name)
  }

  predicate IsSelect(g: Group, name: string) {
    g.name == name && g.kind == "select"
  }

  /** Routing as requested: through the only proxy, through a new group, or through a group there is. */
  ghost predicate IsRouted(lines: seq<string>, sections: seq<Section>, mode: SourceMode, names: seq<string>, existing: seq<string>,
                           groups: seq<Group>, requestedGroup: string, before: Plan, after: Plan, group: string) {
    if requestedGroup == DIRECT then
      mode == Links && groups == [] && names == [group] && IsRuleReplaced(lines, sections, before, after, group)
    else if requestedGroup == CREATE then
      IsGroupCreated(lines, sections, SectionOf(sections, "proxy-groups"), SectionOf(sections, "rules"), mode, names, existing,
                     before, after, group)
    else
      group == requestedGroup
      && exists k: nat :: IsFirstSelect(groups, requestedGroup, k) && IsJoined(lines, before, after, groups[k], mode, names)
  }

  ghost predicate RoutingRefused(lines: seq<string>, sections: seq<Section>, mode: SourceMode, names: seq<string>,
                                 existing: seq<string>, groups: seq<Group>, requestedGroup: string) {
    if requestedGroup == DIRECT then
      mode != Links || |names| != 1 || groups != [] || NoMatchRule(lines, sections)
    else if requestedGroup == CREATE then
      CreationRefused(lines, sections, SectionOf(sections, "proxy-groups"), existing)
    else
      || (forall k :: 0 <= k < |groups| ==> !IsSelect(groups[k], requestedGroup))
      || exists k: nat :: IsFirstSelect(groups, requestedGroup, k) && JoinRefused(lines, groups[k], mode)
  }

  /** Routing as requested, as further edits. */
  method Route(lines: seq<string>, sections: seq<Section>, groupSection: Option<Section>, rulesSection: Option<Section>,
               mode: SourceMode, names: seq<string>, existing: seq<string>, groups: seq<Group>, requestedGroup: string,
               plan: Plan, ghost L: Layout)
    returns (result: Option<(Plan, string)>)
    requires IsSound(lines, sections, L, plan) && HeadersOnly(lines, plan) && GroupsAre(lines, sections, groups)
    requires IsFound(sections, "proxy-groups", groupSection) && IsFound(sections, "rules", rulesSection)
    requires L.section == None && groupSection.Some? ==>
      L.p == groupSection.value.start || (L.main == [] && L.p == |lines|)
    ensures result.Some? ==> IsSound(lines, sections, L, result.value.0)
    ensures result.Some? ==>
      IsRouted(lines, sections, mode, names, existing, groups, requestedGroup, plan, result.value.0, result.value.1)
    ensures result == None ==> RoutingRefused(lines, sections, mode, names, existing, groups, requestedGroup)
  {
    hide IsSound, HeadersOnly, IsDocument, FindSection, IsGroupCreated, CreationRefused, IsRuleReplaced, NoMatchRule, IsJoined, JoinRefused,
         IsSelect, GroupsAre, IsGroup;
    if requestedGroup == DIRECT {
      result := RouteDirect(lines, sections, mode, names, groups, plan, L);
    } else if requestedGroup == CREATE {
      result := CreateGroup(lines, sections, groupSection, rulesSection, mode, names, existing, plan, L);
    } else {
      var k := FindGroup(groups, requestedGroup);
      if k == |groups| {
        return None;
      }
      SoundDocument(lines, sections, L, plan);
      GroupInSection(lines, sections, groups, k, groupSection);
      var joined := JoinGroup(lines, sections, groupSection.value, groups[k], mode, names, plan, L);
      if joined == None {
        return None;
      }
      result := Some((joined.value, requestedGroup));
    }
  }

  method FindGroup(groups: seq<Group>, name: string) returns (k: nat)
    ensures k == |groups| || IsFirstSelect(groups, name, k)
    ensures k == |groups| ==> forall j :: 0 <= j < k ==> !IsSelect(groups[j], name)
  {
    k := 0;
    while k < |groups| && !IsSelect(groups[k], name)
      invariant k <= |groups|
      invariant forall j :: 0 <= j < k ==> !IsSelect(groups[j], name)
    {
      k := k + 1;
    }
  }

  lemma GroupInSection(lines: seq<string>, sections: seq<Section>, groups: seq<Group>, k: nat, found: Option<Section>)
    requires IsDocument(lines, sections) && GroupsAre(lines, sections, groups) && k < |groups|
    requires IsFound(sections, "proxy-groups", found)
    ensures found.Some? && found.value in sections && found.value.key == "proxy-groups" && found.value.end <= |lines|
    ensures IsGroup(lines, found.value, groups[k])
  {
    hide IsDocument, IsBlockList, IsGroup, Matching;
    FoundSection(lines, sections, "proxy-groups", found.value);
  }

  /** What a merge of lines comes to. It is the simultaneous edit of the file by a plan: the parsed fragment in its
      place, and the requested route. Reading it again gives the old names and the new ones, which are different from
      each other and from all names in the file. It fails only for the reasons given. */
  ghost predicate IsOutcome(r: MergeResult, lines: seq<string>, mode: SourceMode, source: string, requestedGroup: string,
                            parse: (string, nat) -> Option<Proxy>, isUrl: string -> bool, m: Merge) {
    match r
    case Merged(text, names, skipped, group) =>
      && WasMerged(text, names, group, lines, mode, source, requestedGroup, parse, isUrl, m) && skipped == m.fragment.skipped
    case NothingToAdd(fragment) =>
      IsRead(lines, m.file) && HasParsed(mode, source, parse, isUrl, m) && fragment == m.fragment && fragment.text == ""
    case Failed =>
      CannotRead(lines) || WasRefused(lines, mode, source, requestedGroup, parse, isUrl, m)
  }

  ghost predicate WasMerged(text: string, names: seq<string>, group: string, lines: seq<string>, mode: SourceMode, source: string,
                            requestedGroup: string, parse: (string, nat) -> Option<Proxy>, isUrl: string -> bool, m: Merge) {
    && IsRead(lines, m.file) && HasParsed(mode, source, parse, isUrl, m) && m.fragment.text != "" && names == m.fragment.names
    && HasPlaced(lines, mode, m) && HasRouted(lines, mode, requestedGroup, m, group)
    && text == EndOnce(Join(Edited(lines, m.plan.insertions, Replaced(m.plan)), "\n"))
    && IsPlan(m.plan, |lines|) && OnlyReplaceable(lines, m.plan)
    && IsClean(Edited(lines, m.plan.insertions, Replaced(m.plan))) && Edited(lines, m.plan.insertions, Replaced(m.plan)) != []
    && FindSection(m.file.sections, "rules").Some? && ReadsAsMerged(mode, lines, text, names)
  }

  ghost predicate WasRefused(lines: seq<string>, mode: SourceMode, source: string, requestedGroup: string,
                             parse: (string, nat) -> Option<Proxy>, isUrl: string -> bool, m: Merge) {
    && IsRead(lines, m.file) && HasParsed(mode, source, parse, isUrl, m) && m.fragment.text != ""
    && CannotMerge(lines, mode, requestedGroup, m)
  }

  /** The merge, by way of what it finds and makes. */
  method MergeParserYaml(configText: string, mode: SourceMode, source: string, requestedGroup: string,
                         parse: (string, nat) -> Option<Proxy>, isUrl: string -> bool)
    returns (r: MergeResult)
    requires forall e: string, k: nat :: parse(e, k).Some? ==> WellFormed(parse(e, k).value.fields)
    ensures exists m :: IsOutcome(r, Lines(configText), mode, source, requestedGroup, parse, isUrl, m)
  {
    hide *;
    var lines := Lines(configText);
    var file := ReadFile(lines);
    if file == None {
      r := Failed;
      FailedOutcome(lines, mode, source, requestedGroup, parse, isUrl, NO_MERGE);
    } else {
      ghost var m;
      LinesClean(configText);
      r, m := MergeInto(lines, file.value, mode, source, requestedGroup, parse, isUrl);
    }
  }

  /** Reading all that a merge has to know of a file. */
  method ReadFile(lines: seq<string>) returns (file: Option<File>)
    ensures file.Some? ==> IsRead(lines, file.value)
    ensures file == None ==> CannotRead(lines)
  {
    hide IsDocument, NamesOf, GroupsUnreadable, GroupsAre, ProviderNames, GroupNames, CannotRead, IsTopLevel, KeyLine;
    var parsed := YamlSections(lines);
    if parsed == None {
      HeaderFails(lines);
      return None;
    }
    var sections := parsed.value;
    var proxies := YamlProxyNames(lines, sections);
    var groups := YamlGroups(lines, sections);
    if proxies == None || groups == None || ProviderNames(lines, sections) == None {
      ReadingFails(lines, sections);
      return None;
    }
    file := Some(File(sections, groups.value,
                      proxies.value + GroupNames(groups.value) + ProviderNames(lines, sections).value));
  }

  /** Parsing the source, and merging what comes out. */
  method MergeInto(lines: seq<string>, file: File, mode: SourceMode, source: string, requestedGroup: string,
                   parse: (string, nat) -> Option<Proxy>, isUrl: string -> bool)
    returns (r: MergeResult, ghost m: Merge)
    requires forall e: string, k: nat :: parse(e, k).Some? ==> WellFormed(parse(e, k).value.fields)
    requires lines != [] && IsClean(lines) && IsRead(lines, file)
    ensures IsOutcome(r, lines, mode, source, requestedGroup, parse, isUrl, m)
  {
    hide *;
    var fragment, named := ParserYaml(mode, source, file.existing, parse, isUrl);
    m := Merge(file, fragment, named, EMPTY, EMPTY);
    ParsingDone(mode, source, parse, isUrl, m);
    if fragment.text == "" {
      r := NothingToAdd(fragment);
      EmptyOutcome(lines, mode, source, requestedGroup, parse, isUrl, m);
    } else {
      r, m := MergeFragment(lines, file, mode, source, fragment, requestedGroup, parse, isUrl, m);
      FragmentOutcome(r, lines, mode, source, requestedGroup, parse, isUrl, m);
    }
  }

  lemma FailedOutcome(lines: seq<string>, mode: SourceMode, source: string, requestedGroup: string,
                      parse: (string, nat) -> Option<Proxy>, isUrl: string -> bool, m: Merge)
    requires CannotRead(lines)
    ensures IsOutcome(Failed, lines, mode, source, requestedGroup, parse, isUrl, m)
  {
    hide CannotRead, WasRefused;
  }

  lemma EmptyOutcome(lines: seq<string>, mode: SourceMode, source: string, requestedGroup: string,
                     parse: (string, nat) -> Option<Proxy>, isUrl: string -> bool, m: Merge)
    requires IsRead(lines, m.file) && HasParsed(mode, source, parse, isUrl, m) && m.fragment.text == ""
    ensures IsOutcome(NothingToAdd(m.fragment), lines, mode, source, requestedGroup, parse, isUrl, m)
  {
    hide IsRead, HasParsed;
  }

  lemma FragmentOutcome(r: MergeResult, lines: seq<string>, mode: SourceMode, source: string, requestedGroup: string,
                        parse: (string, nat) -> Option<Proxy>, isUrl: string -> bool, m: Merge)
    requires IsFragmentOutcome(r, lines, mode, source, requestedGroup, parse, isUrl, m)
    ensures IsOutcome(r, lines, mode, source, requestedGroup, parse, isUrl, m)
  {
    hide WasMerged, WasRefused, CannotRead;
  }

  ghost predicate IsFragmentOutcome(r: MergeResult, lines: seq<string>, mode: SourceMode, source: string, requestedGroup: string,
                                    parse: (string, nat) -> Option<Proxy>, isUrl: string -> bool, m: Merge) {
    match r
    case Merged(text, names, skipped, group) =>
      && WasMerged(text, names, group, lines, mode, source, requestedGroup, parse, isUrl, m) && skipped == m.fragment.skipped
    case NothingToAdd(_) => false
    case Failed => WasRefused(lines, mode, source, requestedGroup, parse, isUrl, m)
  }

  lemma HeaderFails(lines: seq<string>)
    requires exists i :: 0 <= i < |lines| && IsTopLevel(lines[i]) && KeyLine(lines[i]) == None
    ensures CannotRead(lines)
  {
    hide IsTopLevel, KeyLine;
  }

  lemma ReadingFails(lines: seq<string>, sections: seq<Section>)
    requires IsDocument(lines, sections)
    requires NamesOf(lines) == None || GroupsUnreadable(lines, sections) || ProviderNames(lines, sections) == None
    ensures CannotRead(lines)
  {
    hide IsDocument, GroupsUnreadable, ProviderNames, NamesOf;
  }

  lemma ParsingDone(mode: SourceMode, source: string, parse: (string, nat) -> Option<Proxy>, isUrl: string -> bool, m: Merge)
    requires AreFresh(m.fragment.names, NameSet(m.file.existing))
    requires mode == Links ==> IsLinkFragment(m.fragment, Entries(source), parse, NameSet(m.file.existing), m.proxies)
    requires mode == Subscriptions ==> IsProviderFragment(m.fragment, Entries(source), isUrl, NameSet(m.file.existing))
    ensures HasParsed(mode, source, parse, isUrl, m)
  {
    hide AreFresh, IsLinkFragment, IsProviderFragment, Entries, NameSet;
  }

  /** Placing, routing and editing, once the file has been read and the source parsed. */
  method MergeFragment(lines: seq<string>, file: File, mode: SourceMode, source: string, fragment: Fragment, requestedGroup: string,
                       parse: (string, nat) -> Option<Proxy>, isUrl: string -> bool, ghost m0: Merge)
    returns (r: MergeResult, ghost m: Merge)
    requires lines != [] && IsClean(lines) && fragment.text != ""
    requires IsRead(lines, m0.file) && HasParsed(mode, source, parse, isUrl, m0)
    requires file == m0.file && fragment == m0.fragment
    ensures IsFragmentOutcome(r, lines, mode, source, requestedGroup, parse, isUrl, m)
  {
    m := m0;
    var sections := file.sections;
    hide IsDocument, FindSection, NamesOf, Join, EndOnce, WellFormed, IsLinkFragment, IsProviderFragment, AreFresh,
         IsSound, HeadersOnly, IsMain, ReadyFor, GroupsAre, Replaced, Edited, ProviderNames, AllDeep, AllWellFormed, FragmentBody,
         IsPlan, IsClean, OnlyReplaceable, AllReadable, IsFragmentPlaced, PlacingRefused, IsRouted, RoutingRefused, GroupNames;
    var section := FindSection(sections, SectionKey(mode));
    var groupSection := FindSection(sections, "proxy-groups");
    var rulesSection := FindSection(sections, "rules");
    if section == None || groupSection == None || rulesSection == None {
      return Failed, m;
    }
    var body := FragmentBody(fragment.text);
    BodyIs(mode, source, file.existing, parse, isUrl, fragment, m.proxies, body);
    var placed, L, indent := PlaceFragment(lines, sections, mode, section.value, groupSection.value, rulesSection.value, body, m.proxies);
    if placed == None {
      return Failed, m;
    }
    var routed := Route(lines, sections, groupSection.value, rulesSection.value, mode, fragment.names, file.existing, file.groups,
                        requestedGroup, placed.value, L);
    if routed == None {
      return Failed, m;
    }
    m := m.(placed := placed.value, plan := routed.value.0);
    SoundDocument(lines, sections, L, m.plan);
    var edits := EditsOf(routed.value.0, |lines|);
    var edited := ApplyEdits(lines, edits);
    var text := EndOnce(Join(edited, "\n"));
    MergedText(lines, sections, L, m.plan);
    MergedReads(lines, sections, L, m.plan, mode, m.proxies, indent, fragment.names, text);
    r := Merged(text, fragment.names, fragment.skipped, routed.value.1);
  }

  lemma BodyIs(mode: SourceMode, source: string, existing: seq<string>, parse: (string, nat) -> Option<Proxy>,
               isUrl: string -> bool, f: Fragment, proxies: seq<Proxy>, body: seq<string>)
    requires mode == Links ==> IsLinkFragment(f, Entries(source), parse, NameSet(existing), proxies)
    requires mode == Subscriptions ==> IsProviderFragment(f, Entries(source), isUrl, NameSet(existing))
    requires f.text != "" && body == FragmentBody(f.text)
    ensures AllDeep(body, 2)
    ensures mode == Links ==> body == ListLines(proxies, 2) && AllWellFormed(proxies) && f.names == ProxyNamesOf(proxies)
    ensures mode == Subscriptions ==>
      var urls := Urls(Entries(source), isUrl); |f.names| == |urls| && body == ProviderList(f.names, urls)
  {
    hide AllDeep, IsRenaming, Parsed, Entries, ProviderLines, ProxyLines, AllWellFormed, FragmentBody, FragmentText, AreProviderNames,
         Urls;
    NothingText();
    HeadsClean();
    if mode == Links {
      ListDeep(proxies, 2);
      ListSome(proxies);
      BodyOfFragment("proxies:", ListLines(proxies, 2));
    } else {
      ProviderNamesAreWords(f.names, NameSet(existing));
      var urls := Urls(Entries(source), isUrl);
      ProvidersDeep(f.names, urls);
      ProvidersSome(f.names, urls);
      BodyOfFragment("proxy-providers:", ProviderList(f.names, urls));
    }
  }

  lemma NothingText()
    ensures FragmentText([]) == ""
  {
  }

  lemma HeadsClean()
    ensures IsClean(["proxies:"]) && IsClean(["proxy-providers:"])
  {
  }

  lemma ListSome(proxies: seq<Proxy>)
    ensures proxies != [] ==> ListLines(proxies, 2) != []
  {
  }

  lemma ProvidersSome(names: seq<string>, urls: seq<string>)
    requires |names| <= |urls|
    ensures names != [] ==> ProviderList(names, urls) != []
  {
  }

  lemma MergedReads(lines: seq<string>, sections: seq<Section>, L: Layout, plan: Plan, mode: SourceMode, proxies: seq<Proxy>,
                    indent: nat, names: seq<string>, text: string)
    requires IsSound(lines, sections, L, plan) && NamesOf(lines).Some?
    requires mode == Links ==>
      IsMain(L, proxies, indent) && ReadyFor(lines, L, indent) && AllWellFormed(proxies) && names == ProxyNamesOf(proxies)
    requires mode == Subscriptions ==> L.main == []
    requires NamesOf(Lines(text)) == NamesOf(Edited(lines, plan.insertions, Replaced(plan)))
    ensures ReadsAsMerged(mode, lines, text, names)
  {
    hide IsDocument, IsSafe, IsPlan, OnlyReplaceable, NamesOf, Lines, Edited, Replaced, Run, AllWellFormed, AllReadable, IsMain;
    if mode == Links {
      LinkNames(lines, sections, L, plan, proxies, indent);
    } else {
      SafeNamesOf(lines, sections, L, plan);
      RunNothing(Run(START, lines[..L.p]));
    }
  }

  /** Every line that a merge may not replace is in the merged file, in the original order. */
  lemma UntouchedLines(lines: seq<string>, plan: Plan, i: nat, j: nat)
    requires OnlyReplaceable(lines, plan) && i < j < |lines| && !MayReplace(lines[i]) && !MayReplace(lines[j])
    ensures var p, q := NewPosition(plan.insertions, i), NewPosition(plan.insertions, j);
      var edited := Edited(lines, plan.insertions, Replaced(plan));
      && p < q < |edited| && edited[p] == lines[i] && edited[q] == lines[j]
  {
    hide MayReplace;
    LinesSurvive(lines, plan.insertions, Replaced(plan), i);
    LinesSurvive(lines, plan.insertions, Replaced(plan), j);
    PositionsAscend(lines, plan, i, j);
  }

  lemma {:induction false} PositionsAscend(lines: seq<string>, plan: Plan, i: nat, j: nat)
    requires i < j < |lines|
    ensures NewPosition(plan.insertions, i) < NewPosition(plan.insertions, j)
  {
    if i + 1 < j {
      PositionsAscend(lines, plan, i, j - 1);
    }
  }
}
