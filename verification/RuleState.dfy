/**
  Vision rule ids and per-camera rule state (internal/core/vision/state.go and config.go): rules keep apart, and each
  counts exactly its own events.
  */
module RuleState {
  import opened Outcomes
  import opened Text

  /** Unicode lower-casing and the test "letter or digit", of which only these laws are used. */
  datatype Chars = Chars(lower: char -> char, alnum: char -> bool)
  {
    ghost predicate Lawful() {
      && (forall c :: lower(lower(c)) == lower(c))
      && (forall c :: alnum(c) ==> !IsSpace(c))
      && !alnum('-') && !alnum('_') && lower('-') == '-'
    }
  }

  // ----- Rule ids -----

  /** Letters and digits kept, each run of anything else written as one dash. */
  function Collapse(chars: Chars, s: string, lastDash: bool): string {
    if s == "" then ""
    else if chars.alnum(s[0]) then [s[0]] + Collapse(chars, s[1..], false)
    else if lastDash then Collapse(chars, s[1..], true)
    else "-" + Collapse(chars, s[1..], true)
  }

  function TrimLeftDashes(s: string): string {
    if s != "" && s[0] == '-' then TrimLeftDashes(s[1..]) else s
  }

  function TrimRightDashes(s: string): string {
    if s != "" && s[|s| - 1] == '-' then TrimRightDashes(s[..|s| - 1]) else s
  }

  function Sanitize(chars: Chars, value: string): string {
    TrimRightDashes(TrimLeftDashes(Collapse(chars, TrimSpace(LowerAll(chars.lower, value)), false)))
  }

  /** sanitizeRuleID: the loop over the characters. */
  method SanitizeRuleID(chars: Chars, value: string) returns (id: string)
    ensures id == Sanitize(chars, value)
  {
    var trimmed := TrimSpace(LowerAll(chars.lower, value));
    if trimmed == "" {
      return "";
    }
    hide TrimSpace, LowerAll, TrimLeftDashes, TrimRightDashes;
    var built, lastDash := "", false;
    assert trimmed[0..] == trimmed;
    for i := 0 to |trimmed|
      invariant Collapse(chars, trimmed, false) == built + Collapse(chars, trimmed[i..], lastDash)
    {
      var rest := trimmed[i..];
      assert rest[1..] == trimmed[i + 1..];
      CollapseStep(chars, built, rest, lastDash);
      if chars.alnum(trimmed[i]) {
        built := built + [trimmed[i]];
        lastDash := false;
      } else if !lastDash {
        built := built + "-";
        lastDash := true;
      }
    }
    assert built + "" == built;
    id := TrimRightDashes(TrimLeftDashes(built));
  }

  lemma CollapseStep(chars: Chars, built: string, s: string, lastDash: bool)
    requires s != ""
    ensures built + Collapse(chars, s, lastDash)
         == if chars.alnum(s[0]) then built + [s[0]] + Collapse(chars, s[1..], false)
            else if lastDash then built + Collapse(chars, s[1..], true)
            else built + "-" + Collapse(chars, s[1..], true)
  {
    if chars.alnum(s[0]) {
      Regroup(built, [s[0]], Collapse(chars, s[1..], false));
    } else if !lastDash {
      Regroup(built, "-", Collapse(chars, s[1..], true));
    }
  }

  lemma Regroup(a: string, b: string, c: string)
    ensures a + (b + c) == a + b + c
  {
  }

  /** Lower-case letters and digits in words joined by single dashes. */
  ghost predicate CleanPart(chars: Chars, s: string) {
    && (forall i :: 0 <= i < |s| ==> s[i] == '-' || (chars.alnum(s[i]) && chars.lower(s[i]) == s[i]))
    && (forall i :: 0 <= i < |s| - 1 ==> !(s[i] == '-' && s[i + 1] == '-'))
  }

  ghost predicate Clean(chars: Chars, s: string) {
    CleanPart(chars, s) && (s == "" || (s[0] != '-' && s[|s| - 1] != '-'))
  }

  ghost predicate LowerCased(chars: Chars, s: string) {
    forall i :: 0 <= i < |s| ==> chars.lower(s[i]) == s[i]
  }

  lemma {:induction false} LowerAllLowers(chars: Chars, s: string)
    requires chars.Lawful()
    ensures |LowerAll(chars.lower, s)| == |s| && LowerCased(chars, LowerAll(chars.lower, s))
    ensures LowerCased(chars, s) ==> LowerAll(chars.lower, s) == s
  {
    if s != "" {
      LowerAllLowers(chars, s[1..]);
      assert LowerCased(chars, s) ==> LowerCased(chars, s[1..]);
    }
  }

  lemma {:induction false} TrimsKeepLower(chars: Chars, s: string)
    requires LowerCased(chars, s)
    ensures LowerCased(chars, TrimSpace(s))
  {
    LeftTrimKeepsLower(chars, s);
    TrimRightTrims(TrimLeft(s));
  }

  lemma {:induction false} LeftTrimKeepsLower(chars: Chars, s: string)
    requires LowerCased(chars, s)
    ensures LowerCased(chars, TrimLeft(s))
  {
    if s != "" && IsSpace(s[0]) {
      LeftTrimKeepsLower(chars, s[1..]);
    }
  }

  lemma {:induction false} CollapseIsClean(chars: Chars, s: string, lastDash: bool)
    requires chars.Lawful() && LowerCased(chars, s)
    ensures var c := Collapse(chars, s, lastDash); CleanPart(chars, c) && (lastDash && c != "" ==> c[0] != '-')
  {
    if s != "" {
      CollapseIsClean(chars, s[1..], if chars.alnum(s[0]) then false else true);
    }
  }

  lemma {:induction false} LeftDashesClean(chars: Chars, s: string)
    requires CleanPart(chars, s)
    ensures CleanPart(chars, TrimLeftDashes(s)) && (TrimLeftDashes(s) == "" || TrimLeftDashes(s)[0] != '-')
  {
    if s != "" && s[0] == '-' {
      LeftDashesClean(chars, s[1..]);
    }
  }

  lemma {:induction false} RightDashesClean(chars: Chars, s: string)
    requires CleanPart(chars, s) && (s == "" || s[0] != '-')
    ensures Clean(chars, TrimRightDashes(s))
  {
    if s != "" && s[|s| - 1] == '-' {
      RightDashesClean(chars, s[..|s| - 1]);
    }
  }

  lemma SanitizedIsClean(chars: Chars, value: string)
    requires chars.Lawful()
    ensures Clean(chars, Sanitize(chars, value))
  {
    LowerAllLowers(chars, value);
    TrimsKeepLower(chars, LowerAll(chars.lower, value));
    CollapseIsClean(chars, TrimSpace(LowerAll(chars.lower, value)), false);
    LeftDashesClean(chars, Collapse(chars, TrimSpace(LowerAll(chars.lower, value)), false));
    RightDashesClean(chars, TrimLeftDashes(Collapse(chars, TrimSpace(LowerAll(chars.lower, value)), false)));
  }

  lemma {:induction false} CleanCollapses(chars: Chars, s: string, lastDash: bool)
    requires chars.Lawful() && CleanPart(chars, s) && (lastDash && s != "" ==> s[0] != '-')
    ensures Collapse(chars, s, lastDash) == s
  {
    if s != "" {
      assert |s| > 1 && s[0] == '-' ==> s[0 + 1] != '-';
      CleanCollapses(chars, s[1..], s[0] == '-');
    }
  }

  /** Sanitising leaves a text alone exactly when it is clean; so sanitising twice is sanitising once. */
  lemma SanitizeFixesExactlyClean(chars: Chars, value: string)
    requires chars.Lawful()
    ensures Sanitize(chars, value) == value <==> Clean(chars, value)
    ensures Sanitize(chars, Sanitize(chars, value)) == Sanitize(chars, value)
  {
    SanitizedIsClean(chars, value);
    if Clean(chars, value) {
      CleanIsFixed(chars, value);
    }
    CleanIsFixed(chars, Sanitize(chars, value));
  }

  lemma CleanIsFixed(chars: Chars, s: string)
    requires chars.Lawful() && Clean(chars, s)
    ensures Sanitize(chars, s) == s
  {
    assert LowerCased(chars, s);
    LowerAllLowers(chars, s);
    assert Trimmed(s) by {
      assert !IsSpace('-');
    }
    TrimSpaceTrims(s);
    CleanCollapses(chars, s, false);
  }

  // ----- Ids as words -----

  /** The letters and digits a text starts with. */
  function Run(chars: Chars, s: string): string {
    if s == "" || !chars.alnum(s[0]) then "" else [s[0]] + Run(chars, s[1..])
  }

  /** The longest runs of letters and digits, in order. */
  function Words(chars: Chars, s: string): seq<string>
    decreases |s|
  {
    if s == "" then []
    else if !chars.alnum(s[0]) then Words(chars, s[1..])
    else
      RunIsPrefix(chars, s);
      [Run(chars, s)] + Words(chars, s[|Run(chars, s)|..])
  }

  lemma {:induction false} RunIsPrefix(chars: Chars, s: string)
    ensures |Run(chars, s)| <= |s| && Run(chars, s) == s[..|Run(chars, s)|]
    ensures s != "" && chars.alnum(s[0]) ==> Run(chars, s) != ""
    ensures var rest := s[|Run(chars, s)|..]; rest != "" ==> !chars.alnum(rest[0])
    ensures forall i :: 0 <= i < |Run(chars, s)| ==> chars.alnum(Run(chars, s)[i])
  {
    if s != "" && chars.alnum(s[0]) {
      RunIsPrefix(chars, s[1..]);
    }
  }

  function AfterRun(chars: Chars, s: string): string {
    RunIsPrefix(chars, s);
    s[|Run(chars, s)|..]
  }

  lemma RunNext(chars: Chars, s: string)
    requires s != "" && chars.alnum(s[0])
    ensures Run(chars, s) == [s[0]] + Run(chars, s[1..]) && AfterRun(chars, s) == AfterRun(chars, s[1..])
  {
    RunIsPrefix(chars, s);
    RunIsPrefix(chars, s[1..]);
  }

  lemma NoRun(chars: Chars, s: string)
    requires s == "" || !chars.alnum(s[0])
    ensures Run(chars, s) == "" && AfterRun(chars, s) == s
  {
  }

  lemma CollapseLetter(chars: Chars, s: string, lastDash: bool)
    requires s != "" && chars.alnum(s[0])
    ensures Collapse(chars, s, lastDash) == [s[0]] + Collapse(chars, s[1..], false)
  {
  }

  lemma {:induction false} CollapseKeepsRun(chars: Chars, s: string, lastDash: bool)
    requires s != "" && chars.alnum(s[0])
    ensures Collapse(chars, s, lastDash) == Run(chars, s) + Collapse(chars, AfterRun(chars, s), false)
  {
    hide Run, AfterRun, Collapse;
    var rest := s[1..];
    RunNext(chars, s);
    CollapseLetter(chars, s, lastDash);
    if rest != "" && chars.alnum(rest[0]) {
      CollapseKeepsRun(chars, rest, false);
      Regroup([s[0]], Run(chars, rest), Collapse(chars, AfterRun(chars, rest), false));
    } else {
      NoRun(chars, rest);
      assert [s[0]] + "" == [s[0]];
    }
  }

  function Dash(yes: bool): string {
    if yes then "-" else ""
  }

  lemma AddWord(run: string, words: seq<string>, before: bool, after: bool)
    requires (words == [] ==> !after) && (!before ==> words == [])
    ensures run + (Dash(before) + Join(words, "-") + Dash(after))
         == Dash(false) + Join([run] + words, "-") + Dash(if words == [] then before else after)
  {
    if words == [] {
      assert [run] + words == [run];
      assert run + (Dash(before) + "" + "") == "" + run + Dash(before);
    } else {
      assert ([run] + words)[1..] == words;
      assert run + ("-" + Join(words, "-") + Dash(after)) == "" + (run + "-" + Join(words, "-")) + Dash(after);
    }
  }

  /** What collapsing leaves: the words joined by dashes, with a dash before them if the text does not start with a
      word, and perhaps one after them. */
  lemma {:induction false} CollapseJoinsWords(chars: Chars, s: string, lastDash: bool) returns (after: bool)
    ensures Collapse(chars, s, lastDash)
         == Dash(s != "" && !chars.alnum(s[0]) && !lastDash) + Join(Words(chars, s), "-") + Dash(after)
    ensures Words(chars, s) == [] ==> !after
    decreases |s|
  {
    var joined := Join(Words(chars, s), "-");
    if s == "" {
      after := false;
    } else if !chars.alnum(s[0]) {
      after := CollapseJoinsWords(chars, s[1..], true);
      assert "" + joined + Dash(after) == joined + Dash(after);
      assert Dash(!lastDash) + (joined + Dash(after)) == Dash(!lastDash) + joined + Dash(after);
    } else {
      var run, rest := Run(chars, s), AfterRun(chars, s);
      RunIsPrefix(chars, s);
      CollapseKeepsRun(chars, s, lastDash);
      var words := Words(chars, rest);
      assert Words(chars, s) == [run] + words && ([run] + words)[1..] == words;
      var more := CollapseJoinsWords(chars, rest, false);
      assert rest == "" ==> words == [];
      assert rest != "" ==> !chars.alnum(rest[0]);
      hide Collapse, Words, Run, AfterRun;
      after := if words == [] then rest != "" else more;
      AddWord(run, words, rest != "", more);
    }
  }

  lemma {:induction false} WordsHaveNoDashes(chars: Chars, s: string)
    requires chars.Lawful()
    ensures var joined := Join(Words(chars, s), "-");
            && (Words(chars, s) == [] <==> joined == "")
            && (joined != "" ==> joined[0] != '-' && joined[|joined| - 1] != '-')
    decreases |s|
  {
    if s != "" && !chars.alnum(s[0]) {
      WordsHaveNoDashes(chars, s[1..]);
    } else if s != "" {
      RunIsPrefix(chars, s);
      var run, words := Run(chars, s), Words(chars, AfterRun(chars, s));
      WordsHaveNoDashes(chars, AfterRun(chars, s));
      assert Words(chars, s) == [run] + words && ([run] + words)[1..] == words;
      assert run[0] != '-' && run[|run| - 1] != '-';
    }
  }

  lemma TrimDashRight(middle: string, after: bool)
    requires middle != "" && middle[|middle| - 1] != '-'
    ensures TrimRightDashes(middle + Dash(after)) == middle
  {
    if after {
      assert (middle + "-")[..|middle|] == middle;
    } else {
      assert middle + "" == middle;
    }
  }

  lemma TrimDashLeft(rest: string, before: bool)
    requires rest == "" || rest[0] != '-'
    ensures TrimLeftDashes(Dash(before) + rest) == rest
  {
    if before {
      assert ("-" + rest)[1..] == rest;
    } else {
      assert "" + rest == rest;
    }
  }

  lemma TrimDash(before: bool, middle: string, after: bool)
    requires middle != "" ==> middle[0] != '-' && middle[|middle| - 1] != '-'
    requires middle == "" ==> !after
    ensures TrimRightDashes(TrimLeftDashes(Dash(before) + middle + Dash(after))) == middle
  {
    Regroup(Dash(before), middle, Dash(after));
    TrimDashLeft(middle + Dash(after), before);
    if middle == "" {
      assert middle + Dash(after) == "";
    } else {
      hide TrimLeftDashes;
      TrimDashRight(middle, after);
    }
  }

  /** A sanitised id is the words of the text in lower case, joined by dashes. */
  lemma SanitizeJoinsWords(chars: Chars, value: string)
    requires chars.Lawful()
    ensures Sanitize(chars, value) == Join(Words(chars, TrimSpace(LowerAll(chars.lower, value))), "-")
  {
    hide TrimSpace, LowerAll, Collapse, Words;
    var s := TrimSpace(LowerAll(chars.lower, value));
    var after := CollapseJoinsWords(chars, s, false);
    WordsHaveNoDashes(chars, s);
    TrimDash(s != "" && !chars.alnum(s[0]), Join(Words(chars, s), "-"), after);
  }

  // ----- State keys -----

  const PREFIX := "vision_rule_"

  const SUFFIXES := ["_match_count", "_active", "_last_event_at", "_last_entity_value", "_last_dwell_seconds",
                     "_last_status"]

  /** The i-th state key of a rule. */
  function Key(id: string, i: nat): string
    requires i < |SUFFIXES|
  {
    PREFIX + id + SUFFIXES[i]
  }

  function KeysOf(id: string): set<string> {
    set i | 0 <= i < |SUFFIXES| :: Key(id, i)
  }

  ghost predicate IsVisionKey(k: string) {
    PREFIX <= k
  }

  lemma FirstUnderscore(a: string, suffix: string)
    requires '_' !in a && suffix != "" && suffix[0] == '_'
    ensures (a + suffix)[|a|] == '_' && forall m :: 0 <= m < |a| ==> (a + suffix)[m] != '_'
    ensures (a + suffix)[..|a|] == a && (a + suffix)[|a|..] == suffix
  {
    forall m | 0 <= m < |a|
      ensures (a + suffix)[m] != '_'
    {
      assert a[m] in a;
    }
  }

  /** Keys identify their rule and their field: ids without underscore cannot run into the suffixes. */
  lemma KeysIdentify(a: string, b: string, i: nat, j: nat)
    requires i < |SUFFIXES| && j < |SUFFIXES| && '_' !in a && '_' !in b && Key(a, i) == Key(b, j)
    ensures a == b && i == j
  {
    assert SUFFIXES[i][0] == '_' && SUFFIXES[j][0] == '_';
    FirstUnderscore(a, SUFFIXES[i]);
    FirstUnderscore(b, SUFFIXES[j]);
    KeyTail(a, i);
    KeyTail(b, j);
    var tail := Key(a, i)[|PREFIX|..];
    assert tail[|a|] == '_' && tail[|b|] == '_';
    SuffixesDiffer(i, j);
  }

  lemma KeyTail(id: string, i: nat)
    requires i < |SUFFIXES|
    ensures Key(id, i)[|PREFIX|..] == id + SUFFIXES[i]
  {
    Regroup(PREFIX, id, SUFFIXES[i]);
    assert (PREFIX + (id + SUFFIXES[i]))[|PREFIX|..] == id + SUFFIXES[i];
  }

  lemma SuffixesDiffer(i: nat, j: nat)
    requires i < |SUFFIXES| && j < |SUFFIXES| && SUFFIXES[i] == SUFFIXES[j]
    ensures i == j
  {
    assert SUFFIXES[0][1] == 'm' && SUFFIXES[1][1] == 'a';
    assert SUFFIXES[2][7] == 'v' && SUFFIXES[3][7] == 'n' && SUFFIXES[4][6] == 'd' && SUFFIXES[5][6] == 's';
    assert |SUFFIXES[0]| == 12 && |SUFFIXES[1]| == 7 && |SUFFIXES[2]| == 14 && |SUFFIXES[3]| == 18;
    assert |SUFFIXES[4]| == 19 && |SUFFIXES[5]| == 12;
  }

  lemma CleanHasNoUnderscore(chars: Chars, id: string)
    requires chars.Lawful() && Clean(chars, id)
    ensures '_' !in id
  {
  }

  /** Distinct normalised ids have disjoint key sets. */
  lemma DistinctRulesKeepApart(chars: Chars, a: string, b: string)
    requires chars.Lawful() && Clean(chars, a) && Clean(chars, b) && a != b
    ensures KeysOf(a) !! KeysOf(b)
  {
    CleanHasNoUnderscore(chars, a);
    CleanHasNoUnderscore(chars, b);
    forall k | k in KeysOf(a) && k in KeysOf(b)
      ensures false
    {
      var i :| 0 <= i < |SUFFIXES| && Key(a, i) == k;
      var j :| 0 <= j < |SUFFIXES| && Key(b, j) == k;
      KeysIdentify(a, b, i, j);
    }
  }

  // ----- Rule state -----

  datatype Val = Num(n: int) | Flag(b: bool) | Txt(s: string)

  type Fields = map<string, Val>

  datatype Report = Report(observedAt: string, entity: string, dwellSeconds: int, status: string)

  function InitialRuleState(id: string): Fields {
    map[Key(id, 0) := Num(0), Key(id, 1) := Flag(false), Key(id, 2) := Txt(""), Key(id, 3) := Txt(""),
        Key(id, 4) := Num(0), Key(id, 5) := Txt("")]
  }

  function IntValue(v: Val): int {
    if v.Num? then v.n else 0
  }

  function ApplyReportedEvent(previous: Fields, id: string, item: Report): Fields {
    var next := InitialRuleState(id) + previous;
    var count := IntValue(next[Key(id, 0)]) + 1;
    next[Key(id, 1) := Flag(false)][Key(id, 0) := Num(count)][Key(id, 2) := Txt(item.observedAt)]
        [Key(id, 3) := Txt(item.entity)][Key(id, 4) := Num(if item.dwellSeconds < 0 then 0 else item.dwellSeconds)]
        [Key(id, 5) := Txt(item.status)]
  }

  function InitialStates(ids: seq<string>): Fields {
    if ids == [] then map[] else InitialStates(ids[..|ids| - 1]) + InitialRuleState(ids[|ids| - 1])
  }

  /** Dropping every vision key and starting the rules of the device afresh. */
  function Reconciled(state: Fields, ids: seq<string>): Fields {
    (map k | k in state && !(PREFIX <= k) :: state[k]) + InitialStates(ids)
  }

  function MatchCount(state: Fields, id: string): int {
    if Key(id, 0) in state then IntValue(state[Key(id, 0)]) else 0
  }

  /** A report changes its own rule's keys only. */
  lemma ReportTouchesOwnKeys(state: Fields, id: string, item: Report, k: string)
    requires k !in KeysOf(id)
    ensures var next := ApplyReportedEvent(state, id, item);
            (k in next <==> k in state) && (k in state ==> next[k] == state[k])
  {
    assert forall i :: 0 <= i < |SUFFIXES| ==> Key(id, i) in KeysOf(id);
  }

  lemma ReportCounts(state: Fields, id: string, item: Report)
    requires '_' !in id
    ensures MatchCount(ApplyReportedEvent(state, id, item), id) == MatchCount(state, id) + 1
  {
    forall i | 0 < i < |SUFFIXES|
      ensures Key(id, i) != Key(id, 0)
    {
      if Key(id, i) == Key(id, 0) { KeysIdentify(id, id, i, 0); }
    }
  }

  lemma KeysDiffer(id: string, i: nat, j: nat)
    requires '_' !in id && i < |SUFFIXES| && j < |SUFFIXES|
    ensures Key(id, i) == Key(id, j) <==> i == j
  {
    if Key(id, i) == Key(id, j) {
      KeysIdentify(id, id, i, j);
    }
  }

  /** A report sets the fields of its rule to what was reported: inactive, one match more, the time, the entity, the
      dwell time (never negative) and the status. */
  lemma ReportSets(state: Fields, id: string, item: Report)
    requires '_' !in id
    ensures var next := ApplyReportedEvent(state, id, item);
            && next.Keys == state.Keys + KeysOf(id)
            && next[PREFIX + id + "_match_count"] == Num(MatchCount(state, id) + 1)
            && next[PREFIX + id + "_active"] == Flag(false)
            && next[PREFIX + id + "_last_event_at"] == Txt(item.observedAt)
            && next[PREFIX + id + "_last_entity_value"] == Txt(item.entity)
            && next[PREFIX + id + "_last_dwell_seconds"] == Num(if item.dwellSeconds < 0 then 0 else item.dwellSeconds)
            && next[PREFIX + id + "_last_status"] == Txt(item.status)
  {
    forall i: nat, j: nat | i < |SUFFIXES| && j < |SUFFIXES|
      ensures Key(id, i) == Key(id, j) <==> i == j
    {
      KeysDiffer(id, i, j);
    }
    ReportKeys(state, id, item);
    hide KeysOf, InitialRuleState;
    InitialCount(id);
  }

  lemma ReportKeys(state: Fields, id: string, item: Report)
    ensures ApplyReportedEvent(state, id, item).Keys == state.Keys + KeysOf(id)
  {
    assert KeysOf(id) == {Key(id, 0), Key(id, 1), Key(id, 2), Key(id, 3), Key(id, 4), Key(id, 5)};
  }

  lemma InitialCount(id: string)
    requires '_' !in id
    ensures Key(id, 0) in InitialRuleState(id) && InitialRuleState(id)[Key(id, 0)] == Num(0)
  {
    KeysDiffer(id, 0, 1);
    KeysDiffer(id, 0, 2);
    KeysDiffer(id, 0, 3);
    KeysDiffer(id, 0, 4);
    KeysDiffer(id, 0, 5);
  }

  /** The fields of a rule before any report. */
  ghost predicate IsInitial(state: Fields, id: string) {
    forall k :: k in KeysOf(id) ==> k in state && state[k] == InitialRuleState(id)[k]
  }

  lemma {:induction false} InitialStatesHold(chars: Chars, ids: seq<string>)
    requires chars.Lawful() && forall i :: 0 <= i < |ids| ==> Clean(chars, ids[i])
    ensures forall id :: id in ids ==> IsInitial(InitialStates(ids), id)
    ensures forall k :: k in InitialStates(ids) <==> exists id :: id in ids && k in KeysOf(id)
  {
    if ids != [] {
      var front, last := ids[..|ids| - 1], ids[|ids| - 1];
      assert ids == front + [last];
      InitialStatesHold(chars, front);
      InitialKeys(last);
      forall id | id in front && id != last
        ensures KeysOf(id) !! KeysOf(last)
      {
        DistinctRulesKeepApart(chars, id, last);
      }
      hide KeysOf, InitialRuleState;
    }
  }

  lemma InitialKeys(id: string)
    ensures InitialRuleState(id).Keys == KeysOf(id)
  {
    assert KeysOf(id) == {Key(id, 0), Key(id, 1), Key(id, 2), Key(id, 3), Key(id, 4), Key(id, 5)};
  }

  /** After a reconcile exactly the listed rules have state, all of it initial, and other keys are as before. */
  lemma ReconcileRestarts(chars: Chars, state: Fields, ids: seq<string>)
    requires chars.Lawful() && forall i :: 0 <= i < |ids| ==> Clean(chars, ids[i])
    ensures var next := Reconciled(state, ids);
            && (forall id :: id in ids ==> IsInitial(next, id))
            && (forall k :: IsVisionKey(k) ==> (k in next <==> exists id :: id in ids && k in KeysOf(id)))
            && (forall k :: !IsVisionKey(k) ==> (k in next <==> k in state) && (k in state ==> next[k] == state[k]))
  {
    hide KeysOf;
    InitialStatesHold(chars, ids);
    forall id, k | id in ids && k in KeysOf(id)
      ensures IsVisionKey(k)
    {
      KeysAreVision(id, k);
    }
  }

  lemma KeysAreVision(id: string, k: string)
    requires k in KeysOf(id)
    ensures IsVisionKey(k)
  {
  }

  lemma {:induction false} InitialStatesAreVision(ids: seq<string>, id: string)
    requires '_' !in id && forall i :: 0 <= i < |ids| ==> '_' !in ids[i]
    ensures forall k :: k in InitialStates(ids) ==> PREFIX <= k
    ensures MatchCount(InitialStates(ids), id) == 0
  {
    if ids != [] {
      var last := ids[|ids| - 1];
      InitialStatesAreVision(ids[..|ids| - 1], id);
      forall i | 0 <= i < |SUFFIXES| && Key(last, i) == Key(id, 0)
        ensures i == 0
      {
        KeysIdentify(last, id, i, 0);
      }
    }
  }

  // ----- Runs of reconciles and reports on one camera -----

  datatype RuleEvent = Reconcile(ids: seq<string>) | Reported(id: string, item: Report)

  ghost predicate CleanEvent(chars: Chars, e: RuleEvent) {
    match e
    case Reconcile(ids) => forall i :: 0 <= i < |ids| ==> Clean(chars, ids[i])
    case Reported(id, _) => Clean(chars, id)
  }

  function After(state: Fields, events: seq<RuleEvent>): Fields {
    if events == [] then state
    else
      var before := After(state, events[..|events| - 1]);
      match events[|events| - 1]
      case Reconcile(ids) => Reconciled(before, ids)
      case Reported(id, item) => ApplyReportedEvent(before, id, item)
  }

  /** The number of reports for a rule since the last reconcile, and whether there was one. */
  function ReportsSince(events: seq<RuleEvent>, id: string): (nat, bool) {
    if events == [] then (0, false)
    else
      var (count, reconciled) := ReportsSince(events[..|events| - 1], id);
      match events[|events| - 1]
      case Reconcile(_) => (0, true)
      case Reported(other, _) => (if other == id then count + 1 else count, reconciled)
  }

  /** Over any run, the match count of a rule is the number of its reports since the last reconcile (added to the
      initial count when there was none), and every key that is not a vision key keeps its value. */
  lemma {:induction false} CountsOwnReportsSinceReconcile(chars: Chars, state: Fields, events: seq<RuleEvent>,
                                                          id: string)
    requires chars.Lawful() && Clean(chars, id) && forall i :: 0 <= i < |events| ==> CleanEvent(chars, events[i])
    ensures var (count, reconciled) := ReportsSince(events, id);
            MatchCount(After(state, events), id) == count + (if reconciled then 0 else MatchCount(state, id))
    ensures forall k :: !IsVisionKey(k) ==>
              (k in After(state, events) <==> k in state) && (k in state ==> After(state, events)[k] == state[k])
  {
    hide Clean, ApplyReportedEvent, InitialStates;
    if events != [] {
      var front, last := events[..|events| - 1], events[|events| - 1];
      CountsOwnReportsSinceReconcile(chars, state, front, id);
      CleanHasNoUnderscore(chars, id);
      assert CleanEvent(chars, last);
      StepCounts(chars, After(state, front), last, id);
    }
  }

  lemma StepCounts(chars: Chars, state: Fields, e: RuleEvent, id: string)
    requires chars.Lawful() && Clean(chars, id) && CleanEvent(chars, e)
    ensures var next := match e case Reconcile(ids) => Reconciled(state, ids)
                                case Reported(other, item) => ApplyReportedEvent(state, other, item);
            && MatchCount(next, id) == (match e case Reconcile(_) => 0
                                        case Reported(other, _) =>
                                          MatchCount(state, id) + (if other == id then 1 else 0))
            && forall k :: !IsVisionKey(k) ==> (k in next <==> k in state) && (k in state ==> next[k] == state[k])
  {
    hide Clean, ApplyReportedEvent, InitialStates;
    CleanHasNoUnderscore(chars, id);
    match e
    case Reconcile(ids) =>
      forall i | 0 <= i < |ids|
        ensures '_' !in ids[i]
      {
        CleanHasNoUnderscore(chars, ids[i]);
      }
      InitialStatesAreVision(ids, id);
      assert PREFIX <= Key(id, 0);
    case Reported(other, item) =>
      if other == id {
        ReportCounts(state, id, item);
      } else {
        DistinctRulesKeepApart(chars, id, other);
        assert Key(id, 0) in KeysOf(id);
        ReportTouchesOwnKeys(state, other, item, Key(id, 0));
      }
      forall k | !IsVisionKey(k)
        ensures var next := ApplyReportedEvent(state, other, item);
                (k in next <==> k in state) && (k in state ==> next[k] == state[k])
      {
        assert forall i :: 0 <= i < |SUFFIXES| ==> PREFIX <= Key(other, i);
        ReportTouchesOwnKeys(state, other, item, k);
      }
  }

  // ----- The configuration and the store -----

  /** A rule, with the fault that the checks of its camera, stream, entities and zone find in it, if any. */
  datatype Rule = Rule(id: string, name: string, fault: Option<string>)

  datatype ConfigError = MissingId | Rejected(fault: string) | DuplicateId(id: string)

  function Decimal(n: nat): string {
    (if n < 10 then "" else Decimal(n / 10)) + ["0123456789"[n % 10]]
  }

  /** The name of the rule at a position; an unnamed rule is named after its position. */
  function RuleName(rule: Rule, idx: nat): string {
    var name := TrimSpace(rule.name);
    if name == "" then "Vision Rule " + Decimal(idx + 1) else name
  }

  function RuleId(chars: Chars, rule: Rule, idx: nat): string {
    var id := Sanitize(chars, rule.id);
    if id == "" then Sanitize(chars, RuleName(rule, idx)) else id
  }

  /** The first n rules have ids, no fault, and different ids. */
  ghost predicate Accepted(chars: Chars, rules: seq<Rule>, n: nat)
    requires n <= |rules|
  {
    && (forall i :: 0 <= i < n ==> RuleId(chars, rules[i], i) != "" && rules[i].fault.None?)
    && (forall i, j :: 0 <= i < j < n ==> RuleId(chars, rules[i], i) != RuleId(chars, rules[j], j))
  }

  ghost predicate IsFirstFault(chars: Chars, rules: seq<Rule>, i: nat) {
    i < |rules| && Accepted(chars, rules, i) && !Accepted(chars, rules, i + 1)
  }

  /** The error of a rule whose predecessors are accepted. */
  function ErrorOf(chars: Chars, rule: Rule, idx: nat): ConfigError {
    var id := RuleId(chars, rule, idx);
    if id == "" then MissingId else if rule.fault.Some? then Rejected(rule.fault.value) else DuplicateId(id)
  }

  /** normalizeConfig: a configuration is accepted exactly when all rules have ids, no fault and different ids; the ids
      are then clean. Otherwise the error is that of the first rule that cannot be accepted. */
  method NormalizeIds(chars: Chars, rules: seq<Rule>) returns (r: Result<seq<string>, ConfigError>)
    requires chars.Lawful()
    ensures r.Ok? <==> Accepted(chars, rules, |rules|)
    ensures r.Ok? ==>
              && |r.value| == |rules|
              && forall i :: 0 <= i < |rules| ==> r.value[i] == RuleId(chars, rules[i], i) && Clean(chars, r.value[i])
    ensures r.Err? ==>
              exists i: nat :: IsFirstFault(chars, rules, i) && r.error == ErrorOf(chars, rules[i], i)
  {
    hide Sanitize, RuleName, Clean;
    var seen: set<string>, ids: seq<string> := {}, [];
    for i := 0 to |rules|
      invariant |ids| == i && Accepted(chars, rules, i)
      invariant forall j :: 0 <= j < i ==> ids[j] == RuleId(chars, rules[j], j) && Clean(chars, ids[j])
      invariant forall id :: id in seen <==> id in ids
    {
      var id := SanitizeRuleID(chars, rules[i].id);
      SanitizedIsClean(chars, rules[i].id);
      if id == "" {
        id := SanitizeRuleID(chars, RuleName(rules[i], i));
        SanitizedIsClean(chars, RuleName(rules[i], i));
      }
      assert id == RuleId(chars, rules[i], i);
      if id == "" {
        assert IsFirstFault(chars, rules, i);
        return Err(MissingId);
      }
      if rules[i].fault.Some? {
        assert IsFirstFault(chars, rules, i);
        return Err(Rejected(rules[i].fault.value));
      }
      if id in seen {
        ghost var j :| 0 <= j < |ids| && ids[j] == id;
        assert RuleId(chars, rules[j], j) == RuleId(chars, rules[i], i);
        assert IsFirstFault(chars, rules, i);
        return Err(DuplicateId(id));
      }
      seen := seen + {id};
      ids := ids + [id];
    }
    return Ok(ids);
  }

  datatype NormalRule = NormalRule(id: string, camera: string)

  function RulesOf(rules: seq<NormalRule>, camera: string): seq<string> {
    if rules == [] then []
    else
      var last := rules[|rules| - 1];
      RulesOf(rules[..|rules| - 1], camera) + (if last.camera == camera then [last.id] else [])
  }

  class CameraStates {
    var states: map<string, Fields>

    function StateOf(camera: string): Fields
      reads this
    {
      if camera in states then states[camera] else map[]
    }

    /** reconcileDeviceStates: every listed camera is reconciled with its own rules, no other camera changes. */
    method Reconcile(cameras: seq<string>, rules: seq<NormalRule>)
      requires forall i, j :: 0 <= i < j < |cameras| ==> cameras[i] != cameras[j]
      modifies this
      ensures forall c :: c in cameras ==> StateOf(c) == Reconciled(old(StateOf(c)), RulesOf(rules, c))
      ensures forall c :: c !in cameras ==> StateOf(c) == old(StateOf(c))
    {
      hide Reconciled, RulesOf;
      for i := 0 to |cameras|
        invariant forall c :: c in cameras[..i] ==> StateOf(c) == Reconciled(old(StateOf(c)), RulesOf(rules, c))
        invariant forall c :: c !in cameras[..i] ==> StateOf(c) == old(StateOf(c))
      {
        var camera := cameras[i];
        assert camera !in cameras[..i];
        assert cameras[..i + 1] == cameras[..i] + [camera];
        var next := ReconcileState(StateOf(camera), RulesOf(rules, camera));
        states := states[camera := next];
      }
      assert cameras[..|cameras|] == cameras;
    }

    /** The body of the loop: drop the vision keys, then put in the initial state of each rule. */
    static method ReconcileState(state: Fields, ids: seq<string>) returns (next: Fields)
      ensures next == Reconciled(state, ids)
    {
      hide InitialRuleState;
      ghost var kept := map k | k in state && !(PREFIX <= k) :: state[k];
      next := map k | k in state && !(PREFIX <= k) :: state[k];
      for j := 0 to |ids|
        invariant next == kept + InitialStates(ids[..j])
      {
        assert ids[..j + 1][..j] == ids[..j];
        next := next + InitialRuleState(ids[j]);
      }
      assert ids[..|ids|] == ids;
    }

    /** A reported event of a rule on a camera. */
    method ReportEvent(camera: string, id: string, item: Report)
      modifies this
      ensures StateOf(camera) == ApplyReportedEvent(old(StateOf(camera)), id, item)
      ensures forall c :: c != camera ==> StateOf(c) == old(StateOf(c))
    {
      states := states[camera := ApplyReportedEvent(StateOf(camera), id, item)];
    }
  }
}
