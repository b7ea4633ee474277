/**
  RSS source states and run history (workflow_rss_state.go, workflow_state.go): runs read a snapshot when they start
  and append their result atomically when they end; no append is lost.
  */
module SourceStates {
  import opened Lists
  import opened KeyedStates
  import opened Text
  import opened TimeSchedule

  datatype SourceState = SourceState(workflowID: string, nodeID: string, sourceID: string, feedURL: string,
                                     lastRequestedAt: int, lastModified: string, lastResponseBody: string,
                                     updatedAt: int)

  const SOURCE_STATE_LIMIT := 1000
  const RUN_LIMIT := 50

  function StripPrefix(s: string, prefix: string): string {
    if prefix <= s then s[|prefix|..] else s
  }

  function StripSuffix(s: string, suffix: string): string {
    if |suffix| <= |s| && s[|s| - |suffix|..] == suffix then s[..|s| - |suffix|] else s
  }

  function NormalizeURL(lower: char -> char, raw: string): string {
    StripSuffix(StripPrefix(StripPrefix(TrimSpace(LowerAll(lower, raw)), "http://"), "https://"), "/")
  }

  /** workflowSourceStateKey, for a given lower-casing of characters. */
  function SourceKey(lower: char -> char, workflowID: string, nodeID: string, sourceID: string,
                     feedURL: string): string {
    var w, n, s, u := TrimSpace(workflowID), TrimSpace(nodeID), TrimSpace(sourceID), NormalizeURL(lower, feedURL);
    var identity := if s == "" then u else s;
    if w == "" || n == "" || identity == "" then "" else w + SEPARATOR + n + SEPARATOR + identity
  }

  lemma FirstSeparator(a: string, rest: string)
    requires SEPARATOR[0] !in a
    ensures (a + SEPARATOR + rest)[|a|] == SEPARATOR[0] && (a + SEPARATOR + rest)[..|a|] == a
    ensures (a + SEPARATOR + rest)[|a| + 1..] == rest
    ensures forall i :: 0 <= i < |a| ==> (a + SEPARATOR + rest)[i] != SEPARATOR[0]
  {
    assert forall i :: 0 <= i < |a| ==> (a + SEPARATOR + rest)[i] == a[i];
    assert forall i :: 0 <= i < |a| ==> a[i] in a;
  }

  lemma CutAtSeparator(a: string, b: string, rest: string, other: string)
    requires SEPARATOR[0] !in a && SEPARATOR[0] !in b && a + SEPARATOR + rest == b + SEPARATOR + other
    ensures a == b && rest == other
  {
    FirstSeparator(a, rest);
    FirstSeparator(b, other);
  }

  /** The identity of a source within its node: its id, or without one its address. */
  function Identity(lower: char -> char, sourceID: string, feedURL: string): string {
    if TrimSpace(sourceID) != "" then TrimSpace(sourceID) else NormalizeURL(lower, feedURL)
  }

  /** Equal keys are keys of the same source: of one workflow, one node and one identity. */
  lemma SourceKeysIdentify(lower: char -> char, w: string, n: string, s: string, u: string,
                           w': string, n': string, s': string, u': string)
    requires SEPARATOR[0] !in TrimSpace(w) && SEPARATOR[0] !in TrimSpace(w')
    requires SEPARATOR[0] !in TrimSpace(n) && SEPARATOR[0] !in TrimSpace(n')
    requires SourceKey(lower, w, n, s, u) != "" && SourceKey(lower, w, n, s, u) == SourceKey(lower, w', n', s', u')
    ensures TrimSpace(w) == TrimSpace(w') && TrimSpace(n) == TrimSpace(n')
    ensures Identity(lower, s, u) == Identity(lower, s', u')
  {
    hide TrimSpace, NormalizeURL;
    var tail := TrimSpace(n) + SEPARATOR + Identity(lower, s, u);
    var tail' := TrimSpace(n') + SEPARATOR + Identity(lower, s', u');
    assert SourceKey(lower, w, n, s, u) == TrimSpace(w) + SEPARATOR + tail;
    assert SourceKey(lower, w', n', s', u') == TrimSpace(w') + SEPARATOR + tail';
    CutAtSeparator(TrimSpace(w), TrimSpace(w'), tail, tail');
    CutAtSeparator(TrimSpace(n), TrimSpace(n'), Identity(lower, s, u), Identity(lower, s', u'));
  }

  lemma {:induction false} LowerFixed(lower: char -> char, s: string)
    requires forall c :: c in s ==> lower(c) == c
    ensures LowerAll(lower, s) == s
  {
    if s != "" {
      LowerFixed(lower, s[1..]);
    }
  }

  /** A lower-case address without scheme and final slash. */
  predicate IsPlain(lower: char -> char, url: string) {
    && url != "" && Trimmed(url) && url[|url| - 1] != '/' && (forall c :: c in url ==> lower(c) == c)
    && !("http://" <= url) && !("https://" <= url)
  }

  lemma EndsOf(url: string, scheme: string, slash: string)
    requires url != "" && Trimmed(url) && scheme in {"", "http://", "https://"} && slash in {"", "/"}
    ensures Trimmed(scheme + url + slash)
  {
    var whole := scheme + url + slash;
    assert whole[0] == (if scheme == "" then url[0] else 'h');
    assert whole[|whole| - 1] == (if slash == "" then url[|url| - 1] else '/');
  }

  lemma WholeIsTrimmed(lower: char -> char, url: string, scheme: string, slash: string)
    requires IsPlain(lower, url) && scheme in {"", "http://", "https://"} && slash in {"", "/"}
    requires forall c :: c in "http:/s" ==> lower(c) == c
    ensures TrimSpace(LowerAll(lower, scheme + url + slash)) == scheme + url + slash
  {
    hide TrimSpace, LowerAll;
    var whole := scheme + url + slash;
    assert forall c :: c in whole ==> c in url || c in "http:/s";
    LowerFixed(lower, whole);
    EndsOf(url, scheme, slash);
    hide IsSpace;
    TrimSpaceTrims(whole);
  }

  lemma NoSchemeAppears(url: string, slash: string, scheme: string)
    requires url != "" && url[|url| - 1] != '/' && slash in {"", "/"} && !(scheme <= url)
    requires scheme in {"http://", "https://"}
    ensures !(scheme <= url + slash)
  {
    assert url + "" == url && (url + slash)[..|url|] == url;
  }

  lemma SlashStripped(url: string, slash: string)
    requires url != "" && url[|url| - 1] != '/' && slash in {"", "/"}
    ensures StripSuffix(url + slash, "/") == url
  {
    assert (url + slash)[..|url|] == url;
    if slash == "" {
      assert url + slash == url && url[|url| - 1..] == [url[|url| - 1]];
      assert url[|url| - 1..][0] != "/"[0];
    } else {
      assert (url + slash)[|url|..] == "/";
    }
  }

  /** Scheme and final slash make no difference to the address of a feed. */
  lemma SchemeAndSlashDoNotMatter(lower: char -> char, url: string, scheme: string, slash: string)
    requires IsPlain(lower, url) && scheme in {"", "http://", "https://"} && slash in {"", "/"}
    requires forall c :: c in "http:/s" ==> lower(c) == c
    ensures NormalizeURL(lower, scheme + url + slash) == url
  {
    WholeIsTrimmed(lower, url, scheme, slash);
    NoSchemeAppears(url, slash, "http://");
    NoSchemeAppears(url, slash, "https://");
    assert scheme + url + slash == scheme + (url + slash);
    PrefixStripped(url + slash, scheme);
    SlashStripped(url, slash);
    hide TrimSpace, LowerAll, StripPrefix, StripSuffix, IsPlain;
  }

  lemma PrefixStripped(rest: string, scheme: string)
    requires scheme in {"", "http://", "https://"} && !("http://" <= rest) && !("https://" <= rest)
    ensures StripPrefix(StripPrefix(scheme + rest, "http://"), "https://") == rest
  {
    assert "" + rest == rest;
    assert ("http://" + rest)[7..] == rest && ("https://" + rest)[8..] == rest;
    assert !("http://" <= "https://" + rest) by {
      assert ("https://" + rest)[4] == 's';
    }
  }

  function NormalizeSourceState(s: SourceState): SourceState {
    SourceState(TrimSpace(s.workflowID), TrimSpace(s.nodeID), TrimSpace(s.sourceID), TrimSpace(s.feedURL),
                s.lastRequestedAt, TrimSpace(s.lastModified), s.lastResponseBody,
                if s.updatedAt == ZERO_TIME then s.lastRequestedAt else s.updatedAt)
  }

  function SourceShape(lower: char -> char): Shape<SourceState> {
    Shape((s: SourceState) => NormalizeSourceState(s),
          (s: SourceState) => SourceKey(lower, s.workflowID, s.nodeID, s.sourceID, s.feedURL))
  }

  lemma TrimTwice(s: string)
    ensures TrimSpace(TrimSpace(s)) == TrimSpace(s)
  {
    TrimSpaceTrims(s);
    TrimSpaceTrims(TrimSpace(s));
  }

  lemma SourceShapeIsLawful(lower: char -> char)
    ensures SourceShape(lower).Lawful()
  {
    forall s: SourceState
      ensures NormalizeSourceState(NormalizeSourceState(s)) == NormalizeSourceState(s)
    {
      TrimTwice(s.workflowID);
      TrimTwice(s.nodeID);
      TrimTwice(s.sourceID);
      TrimTwice(s.feedURL);
      TrimTwice(s.lastModified);
    }
  }

  // ----- What one poll commits -----

  datatype Feed = Feed(sourceID: string, feedURL: string)

  datatype FetchResult = FetchResult(notModified: bool, lastModified: string, rawBody: string, requestedAt: int)

  function FeedKey(lower: char -> char, workflowID: string, nodeID: string, feed: Feed): string {
    SourceKey(lower, workflowID, nodeID, TrimSpace(feed.sourceID), TrimSpace(feed.feedURL))
  }

  /** The commit state of buildWorkflowSourceStateUpdate. */
  function CommitOf(current: SourceState, nodeID: string, workflowID: string, feed: Feed,
                    result: FetchResult): SourceState {
    var requested := SourceState(TrimSpace(workflowID), TrimSpace(nodeID),
                                 TrimSpace(feed.sourceID), TrimSpace(feed.feedURL), result.requestedAt,
                                 current.lastModified, current.lastResponseBody, result.requestedAt);
    if result.notModified then
      if result.lastModified != "" then requested.(lastModified := result.lastModified) else requested
    else
      requested.(lastModified := result.lastModified, lastResponseBody := result.rawBody)
  }

  /** A commit is stored under the key it was polled for. */
  lemma CommitKeepsKey(lower: char -> char, current: SourceState, nodeID: string, workflowID: string, feed: Feed,
                       result: FetchResult)
    ensures var shape := SourceShape(lower);
            shape.key(shape.normalize(CommitOf(current, nodeID, workflowID, feed, result)))
            == FeedKey(lower, workflowID, nodeID, feed)
  {
    TrimTwice(workflowID);
    TrimTwice(nodeID);
    TrimTwice(feed.sourceID);
    TrimTwice(feed.feedURL);
  }

  lemma CommitIsNormal(current: SourceState, nodeID: string, workflowID: string, feed: Feed, result: FetchResult)
    requires Trimmed(current.lastModified) && Trimmed(result.lastModified)
    ensures var c := CommitOf(current, nodeID, workflowID, feed, result); NormalizeSourceState(c) == c
  {
    TrimTwice(workflowID);
    TrimTwice(nodeID);
    TrimTwice(feed.sourceID);
    TrimTwice(feed.feedURL);
    TrimSpaceTrims(current.lastModified);
    TrimSpaceTrims(result.lastModified);
  }

  // ----- The store -----

  datatype Poll = Poll(workflowID: string, nodeID: string, feed: Feed, result: FetchResult)

  function BlankState(p: Poll): SourceState {
    SourceState(p.workflowID, TrimSpace(p.nodeID), TrimSpace(p.feed.sourceID), TrimSpace(p.feed.feedURL),
                ZERO_TIME, "", "", ZERO_TIME)
  }

  /** The commits of a run: built from the states it saw when it started. */
  function CommitsOf(snapshot: map<string, SourceState>, polls: map<string, Poll>): map<string, SourceState> {
    map k | k in polls ::
      CommitOf(if k in snapshot then snapshot[k] else BlankState(polls[k]),
               polls[k].nodeID, polls[k].workflowID, polls[k].feed, polls[k].result)
  }

  /** Run history, stored source states, the source keys of the definitions, and the snapshots of the runs under way;
      runs are represented by their ids. */
  datatype Store = Store(runs: seq<string>, sources: map<string, SourceState>, allowed: set<string>,
                         running: map<string, map<string, SourceState>>)

  /** A run starts by taking a snapshot, and ends by appending itself with the commits of its polls. In between, other
      updates load and store everything, and the definitions are edited. */
  datatype RunEvent =
    | StartRun(id: string)
    | AppendRun(id: string, polls: map<string, Poll>, saved: bool)
    | OtherUpdate(saved: bool)
    | SaveDefinitions(next: set<string>, definitionsWritten: bool, runsWritten: bool)

  /** What a load finds: the states of the sources that the definitions have. */
  ghost function Visible(s: Store): map<string, SourceState> {
    Restrict(s.sources, s.allowed)
  }

  ghost function StoreStep(s: Store, e: RunEvent): Store {
    match e
    case StartRun(id) => s.(running := s.running[id := Visible(s)])
    case AppendRun(id, polls, saved) =>
      if saved && id in s.running then
        s.(runs := Truncate([id] + s.runs, RUN_LIMIT), sources := Visible(s) + CommitsOf(s.running[id], polls))
      else s
    case OtherUpdate(saved) => if saved then s.(sources := Visible(s)) else s
    case SaveDefinitions(next, definitionsWritten, runsWritten) =>
      if !definitionsWritten then s
      else if !runsWritten then s.(allowed := next)
      else s.(allowed := next, sources := Restrict(Visible(s), next))
  }

  ghost function StoreAfter(s: Store, events: seq<RunEvent>): Store {
    if events == [] then s else StoreStep(StoreAfter(s, events[..|events| - 1]), events[|events| - 1])
  }

  ghost function StoreAt(s: Store, events: seq<RunEvent>, n: nat): Store
    requires n <= |events|
  {
    StoreAfter(s, events[..n])
  }

  lemma StoreAtNext(s: Store, events: seq<RunEvent>, n: nat)
    requires n < |events|
    ensures StoreAt(s, events, n + 1) == StoreStep(StoreAt(s, events, n), events[n])
  {
    assert events[..n + 1][..n] == events[..n];
  }

  // ----- No commit is lost -----

  /** The event appends a run that polled the source. */
  ghost predicate Commits(before: Store, e: RunEvent, k: string) {
    e.AppendRun? && e.saved && e.id in before.running && k in e.polls
  }

  ghost predicate CommitsAt(s: Store, events: seq<RunEvent>, i: nat, k: string)
    requires i < |events|
  {
    Commits(StoreAt(s, events, i), events[i], k)
  }

  /** The source is in the definitions at every moment from one to another. */
  ghost predicate InDefinitions(s: Store, events: seq<RunEvent>, lo: nat, hi: nat, k: string)
    requires lo <= hi <= |events|
  {
    forall n :: lo <= n <= hi ==> k in StoreAt(s, events, n).allowed
  }

  ghost predicate SameState(before: Store, after: Store, k: string) {
    (k in after.sources <==> k in before.sources) && (k in before.sources ==> after.sources[k] == before.sources[k])
  }

  lemma StepKeepsUnpolled(s: Store, e: RunEvent, k: string)
    requires !Commits(s, e, k) && k in s.allowed && k in StoreStep(s, e).allowed
    ensures SameState(s, StoreStep(s, e), k)
  {
    hide CommitOf;
  }

  /** A source that stays in the definitions and that no appended run polled is untouched. */
  lemma {:induction false} UnpolledIsUntouched(s: Store, events: seq<RunEvent>, lo: nat, hi: nat, k: string)
    requires lo <= hi <= |events| && InDefinitions(s, events, lo, hi, k)
    requires forall i :: lo <= i < hi ==> !CommitsAt(s, events, i, k)
    ensures SameState(StoreAt(s, events, lo), StoreAt(s, events, hi), k)
    decreases hi
  {
    hide StoreAt, StoreStep;
    if hi > lo {
      UnpolledIsUntouched(s, events, lo, hi - 1, k);
      StoreAtNext(s, events, hi - 1);
      assert !CommitsAt(s, events, hi - 1, k);
      StepKeepsUnpolled(StoreAt(s, events, hi - 1), events[hi - 1], k);
    }
  }

  /** The last append, before the end, of a run that polled the source. */
  ghost predicate LastCommit(s: Store, events: seq<RunEvent>, lo: nat, i: nat, hi: nat, k: string)
    requires hi <= |events|
  {
    lo <= i < hi && CommitsAt(s, events, i, k) && forall j :: i < j < hi ==> !CommitsAt(s, events, j, k)
  }

  /** In any interleaving of starts, appends, other updates and edits that keep the source, it holds the commit of the
      last appended run that polled it. */
  lemma NoCommitIsLost(s: Store, events: seq<RunEvent>, i: nat, hi: nat, k: string)
    requires hi <= |events| && LastCommit(s, events, 0, i, hi, k) && InDefinitions(s, events, i + 1, hi, k)
    ensures var before, after := StoreAt(s, events, i), StoreAt(s, events, hi);
            k in after.sources && after.sources[k] == CommitsOf(before.running[events[i].id], events[i].polls)[k]
  {
    StoreAtNext(s, events, i);
    hide StoreAt;
    UnpolledIsUntouched(s, events, i + 1, hi, k);
  }

  /** The runs appended by the events, newest first. */
  ghost function Appended(s: Store, events: seq<RunEvent>): seq<string> {
    if events == [] then []
    else
      var front, last := events[..|events| - 1], events[|events| - 1];
      (if last.AppendRun? && last.saved && last.id in StoreAfter(s, front).running then [last.id] else [])
      + Appended(s, front)
  }

  /** The history is the last appended runs, newest first, at most fifty. */
  lemma {:induction false} HistoryIsNewestFirst(s: Store, events: seq<RunEvent>)
    requires |s.runs| <= RUN_LIMIT
    ensures StoreAfter(s, events).runs == Truncate(Appended(s, events) + s.runs, RUN_LIMIT)
  {
    if events == [] {
      assert Appended(s, events) + s.runs == s.runs;
    } else {
      var front, last := events[..|events| - 1], events[|events| - 1];
      HistoryIsNewestFirst(s, front);
      var older := Appended(s, front) + s.runs;
      if last.AppendRun? && last.saved && last.id in StoreAfter(s, front).running {
        assert Appended(s, events) + s.runs == [last.id] + older;
        assert Truncate([last.id] + Truncate(older, RUN_LIMIT), RUN_LIMIT) == Truncate([last.id] + older, RUN_LIMIT);
      } else {
        assert Appended(s, events) + s.runs == older;
      }
    }
  }

  // ----- Overlapping runs and "not modified" -----

  /** The body that a load finds for a source; empty when there is none. */
  ghost function Body(s: Store, k: string): string {
    if k in Visible(s) then s.sources[k].lastResponseBody else ""
  }

  /** Run id starts at j and is appended at i, after a poll of k. */
  ghost predicate RunPolls(s: Store, events: seq<RunEvent>, j: nat, i: nat, k: string) {
    && j < i < |events| && events[i].AppendRun? && events[i].saved && k in events[i].polls
    && events[j] == StartRun(events[i].id)
    && (forall m :: j < m < i ==> events[m] != events[j])
  }

  /** The snapshot of a run is the store of the moment it started. */
  lemma {:induction false} SnapshotIsStoreAtStart(s: Store, events: seq<RunEvent>, j: nat, n: nat, id: string)
    requires j < n <= |events| && events[j] == StartRun(id)
    requires forall m :: j < m < n ==> events[m] != StartRun(id)
    ensures var running := StoreAt(s, events, n).running;
            id in running && running[id] == Visible(StoreAt(s, events, j))
    decreases n
  {
    StoreAtNext(s, events, n - 1);
    hide StoreAt, Visible;
    if j < n - 1 {
      SnapshotIsStoreAtStart(s, events, j, n - 1, id);
      assert events[n - 1] != StartRun(id);
    }
  }

  /** A run that polls a source leaves it with the body it fetched, or, when it was answered "not modified", with the
      body of the moment the run started. */
  lemma AppendedBody(s: Store, events: seq<RunEvent>, j: nat, i: nat, k: string)
    requires RunPolls(s, events, j, i, k) && k in StoreAt(s, events, i).allowed
    ensures CommitsAt(s, events, i, k)
    ensures var result := events[i].polls[k].result;
            Body(StoreAt(s, events, i + 1), k)
            == if result.notModified then Body(StoreAt(s, events, j), k) else result.rawBody
  {
    StoreAtNext(s, events, i);
    SnapshotIsStoreAtStart(s, events, j, i, events[i].id);
    hide StoreAt, TrimSpace;
  }

  /** The rest of the state an append leaves: the time of the request, and the validator of the reply, which for "not
      modified" without one is that of the moment the run started, and otherwise none. */
  lemma AppendedState(s: Store, events: seq<RunEvent>, j: nat, i: nat, k: string)
    requires RunPolls(s, events, j, i, k) && k in StoreAt(s, events, i).allowed
    ensures var result, before, after := events[i].polls[k].result, StoreAt(s, events, j), StoreAt(s, events, i + 1);
            && k in Visible(after)
            && after.sources[k].lastRequestedAt == result.requestedAt
            && after.sources[k].updatedAt == result.requestedAt
            && after.sources[k].lastModified
               == if result.lastModified != "" || !result.notModified then result.lastModified
                  else if k in Visible(before) then before.sources[k].lastModified
                  else ""
  {
    StoreAtNext(s, events, i);
    SnapshotIsStoreAtStart(s, events, j, i, events[i].id);
    hide StoreAt, TrimSpace;
  }

  /** So an append answered "not modified" leaves the stored body alone if and only if that is still the body of the
      moment the run started, whether or not the source had a state then. */
  lemma NotModifiedKeepsBodyIff(s: Store, events: seq<RunEvent>, j: nat, i: nat, k: string)
    requires RunPolls(s, events, j, i, k) && k in StoreAt(s, events, i).allowed
    requires events[i].polls[k].result.notModified
    ensures Body(StoreAt(s, events, i + 1), k) == Body(StoreAt(s, events, i), k) <==>
            Body(StoreAt(s, events, i), k) == Body(StoreAt(s, events, j), k)
  {
    AppendedBody(s, events, j, i, k);
  }

  /** And that it is not, exactly when the last append in between of a run that polled the source left another body. */
  lemma BodyChangesIff(s: Store, events: seq<RunEvent>, j: nat, i: nat, k: string)
    requires j <= i <= |events| && InDefinitions(s, events, j, i, k)
    ensures Body(StoreAt(s, events, i), k) != Body(StoreAt(s, events, j), k) <==>
            exists m: nat :: LastCommit(s, events, j, m, i, k)
                        && Body(StoreAt(s, events, m + 1), k) != Body(StoreAt(s, events, j), k)
  {
    hide StoreAt, CommitsAt;
    if m :| j <= m < i && CommitsAt(s, events, m, k) {
      var last := TheLastCommit(s, events, j, m, i, k);
      UnpolledIsUntouched(s, events, last + 1, i, k);
    } else {
      UnpolledIsUntouched(s, events, j, i, k);
    }
  }

  lemma {:induction false} TheLastCommit(s: Store, events: seq<RunEvent>, j: nat, m: nat, i: nat, k: string)
    returns (last: nat)
    requires j <= m < i <= |events| && CommitsAt(s, events, m, k)
    ensures LastCommit(s, events, j, last, i, k)
    ensures forall n :: LastCommit(s, events, j, n, i, k) ==> n == last
    decreases i - m
  {
    hide CommitsAt;
    if n :| m < n < i && CommitsAt(s, events, n, k) {
      last := TheLastCommit(s, events, j, n, i, k);
    } else {
      last := m;
    }
  }

  /** It need not be: of two overlapping runs, one that got a new body and one that was answered "not modified", the
      second to be appended puts the old body back, or none when the source had no state before. */
  lemma OverlappingRunsRestoreTheOldBody(s: Store, a: string, b: string, k: string,
                                         pollsA: map<string, Poll>, pollsB: map<string, Poll>)
    requires a != b && k in s.allowed && k in pollsA && k in pollsB
    requires !pollsA[k].result.notModified && pollsB[k].result.notModified
    ensures var events := [StartRun(a), StartRun(b), AppendRun(a, pollsA, true), AppendRun(b, pollsB, true)];
            && Body(StoreAt(s, events, 3), k) == pollsA[k].result.rawBody
            && Body(StoreAt(s, events, 4), k) == Body(s, k)
  {
    var events := [StartRun(a), StartRun(b), AppendRun(a, pollsA, true), AppendRun(b, pollsB, true)];
    StartsChangeNothing(s, events, k);
    hide StoreAt, Body, StoreStep;
    AppendedBody(s, events, 0, 2, k);
    AppendedBody(s, events, 1, 3, k);
  }

  lemma StartsChangeNothing(s: Store, events: seq<RunEvent>, k: string)
    requires |events| == 4 && events[0].StartRun? && events[1].StartRun? && events[2].AppendRun?
    ensures Body(StoreAt(s, events, 0), k) == Body(s, k) && Body(StoreAt(s, events, 1), k) == Body(s, k)
    ensures StoreAt(s, events, 2).allowed == s.allowed && StoreAt(s, events, 3).allowed == s.allowed
  {
    StoreAtNext(s, events, 0);
    StoreAtNext(s, events, 1);
    StoreAtNext(s, events, 2);
    assert events[..0] == [];
    assert StoreAt(s, events, 0) == s;
    hide StoreAt, CommitsOf;
  }

  // ----- The service -----

  class RunStore {
    const lower: char -> char
    var allowed: set<string>  // the source keys of the definitions
    var runs: seq<string>
    var sourceStates: seq<SourceState>
    var running: map<string, map<string, SourceState>>

    /** The abstract store: the source list as the map its entries stand for. */
    ghost function Model(): Store
      reads this
    {
      Store(runs, Stored(SourceShape(lower), sourceStates), allowed, running)
    }

    /** The snapshots of running workflows come from loads, so their states are normalised. */
    ghost predicate Valid()
      reads this
    {
      |allowed| <= SOURCE_STATE_LIMIT && "" !in allowed
      && forall id, k :: id in running && k in running[id] ==> Trimmed(running[id][k].lastModified)
    }

    constructor (lower: char -> char, allowed: set<string>, runs: seq<string>, sourceStates: seq<SourceState>)
      requires |allowed| <= SOURCE_STATE_LIMIT && "" !in allowed
      ensures Valid() && this.lower == lower
      ensures Model() == Store(runs, Stored(SourceShape(lower), sourceStates), allowed, map[])
    {
      this.lower, this.allowed, this.runs, this.sourceStates := lower, allowed, runs, sourceStates;
      this.running := map[];
    }

    method Load() returns (loaded: seq<SourceState>)
      requires Valid()
      ensures Tidy(SourceShape(lower), loaded) && Lookup(SourceShape(lower), loaded) == Visible(Model())
      ensures Stored(SourceShape(lower), loaded) == Visible(Model())
    {
      SourceShapeIsLawful(lower);
      loaded := Prune(SourceShape(lower), sourceStates, allowed, SOURCE_STATE_LIMIT);
      LoadRestricts(SourceShape(lower), sourceStates, allowed, SOURCE_STATE_LIMIT);
    }

    /** A run starts: its executor gets the table of a new load. */
    method Start(id: string)
      requires Valid()
      modifies this
      ensures Valid() && Model() == StoreStep(old(Model()), StartRun(id))
    {
      var loaded := Load();
      SourceShapeIsLawful(lower);
      TableIsLookup(SourceShape(lower), loaded);
      var table := Updated(SourceShape(lower), map[], loaded);
      forall k | k in table
        ensures Trimmed(table[k].lastModified)
      {
        var state := loaded[IndexOf(SourceShape(lower), loaded, k)];
        assert NormalizeSourceState(state) == state;
        TrimSpaceTrims(state.lastModified);
      }
      running := running[id := table];
    }

    /** appendWorkflowRun: one atomic load, change and save. The commits come out of a Go map in any order; the
        definitions may have dropped polled sources while the run was under way. */
    method Append(id: string, polls: map<string, Poll>, saved: bool)
      requires Valid() && id in running && |allowed + polls.Keys| <= SOURCE_STATE_LIMIT
      requires PollsAreKeyed(lower, polls)
      modifies this
      ensures Valid() && Model() == StoreStep(old(Model()), AppendRun(id, polls, saved))
    {
      hide Lookup, Stored, CommitsOf, Visible, StoreStep, Truncate, PollsAreKeyed, CommitsReady;
      AppendStep(Model(), id, polls, saved);
      var commits := CommitsOf(running[id], polls);
      CommitsAreKeyed(lower, running[id], polls);
      var states := Merged(commits);
      if saved {
        runs := Truncate([id] + runs, RUN_LIMIT);
        sourceStates := states;
      }
    }

    /** Any other change of the snapshot, such as a tick: everything is loaded and stored again. */
    method Update(saved: bool)
      requires Valid()
      modifies this
      ensures Valid() && Model() == StoreStep(old(Model()), OtherUpdate(saved))
    {
      var loaded := Load();
      if saved {
        sourceStates := loaded;
      }
    }

    /** SaveWorkflow: the definitions document is written first, the runs document with the source states second. */
    method SaveDefinitions(next: set<string>, definitionsWritten: bool, runsWritten: bool)
      requires Valid() && |next| <= SOURCE_STATE_LIMIT && "" !in next
      modifies this
      ensures Valid()
      ensures Model() == StoreStep(old(Model()), RunEvent.SaveDefinitions(next, definitionsWritten, runsWritten))
    {
      hide Pruned, NormalizeSourceState, SourceKey, IndexOf;
      var loaded := Load();
      SourceShapeIsLawful(lower);
      var states := Prune(SourceShape(lower), loaded, next, SOURCE_STATE_LIMIT);
      LoadRestricts(SourceShape(lower), loaded, next, SOURCE_STATE_LIMIT);
      if definitionsWritten {
        allowed := next;
        if runsWritten {
          sourceStates := states;
        }
      }
    }

    /** Load and applyWorkflowSourceStateUpdates: the loaded states with the commits put in. */
    method Merged(commits: map<string, SourceState>) returns (states: seq<SourceState>)
      requires Valid() && |allowed + commits.Keys| <= SOURCE_STATE_LIMIT
      requires CommitsReady(SourceShape(lower), commits)
      ensures Stored(SourceShape(lower), states) == Visible(Model()) + commits
    {
      hide Stored, Pruned, PutAll, Updated, NormalizeSourceState, SourceKey, SourceShape;
      var shape := SourceShape(lower);
      SourceShapeIsLawful(lower);
      var loaded := Load();
      var updates := CommitList(shape, commits);
      states := Upsert(shape, loaded, updates, SOURCE_STATE_LIMIT);
      UpsertUpdates(shape, loaded, updates, allowed + commits.Keys, SOURCE_STATE_LIMIT);
    }
  }

  lemma AppendStep(s: Store, id: string, polls: map<string, Poll>, saved: bool)
    requires id in s.running
    ensures StoreStep(s, AppendRun(id, polls, saved))
         == if saved then Store(Truncate([id] + s.runs, RUN_LIMIT), Visible(s) + CommitsOf(s.running[id], polls),
                                s.allowed, s.running)
            else s
  {
  }

  /** Polls are staged under the key of their feed, which is not blank; validators come trimmed. */
  ghost predicate PollsAreKeyed(lower: char -> char, polls: map<string, Poll>) {
    forall k :: k in polls ==>
                  && k != "" && FeedKey(lower, polls[k].workflowID, polls[k].nodeID, polls[k].feed) == k
                  && Trimmed(polls[k].result.lastModified)
  }

  /** Normalised states under their own keys, none blank. */
  ghost predicate CommitsReady(shape: Shape<SourceState>, commits: map<string, SourceState>) {
    forall k :: k in commits ==> k != "" && shape.normalize(commits[k]) == commits[k] && shape.key(commits[k]) == k
  }

  lemma CommitsAreKeyed(lower: char -> char, snapshot: map<string, SourceState>, polls: map<string, Poll>)
    requires forall k :: k in snapshot ==> Trimmed(snapshot[k].lastModified)
    requires PollsAreKeyed(lower, polls)
    ensures CommitsOf(snapshot, polls).Keys == polls.Keys
    ensures CommitsReady(SourceShape(lower), CommitsOf(snapshot, polls))
  {
    var shape, commits := SourceShape(lower), CommitsOf(snapshot, polls);
    forall k | k in commits
      ensures shape.normalize(commits[k]) == commits[k] && shape.key(commits[k]) == k
    {
      var p, current := polls[k], if k in snapshot then snapshot[k] else BlankState(polls[k]);
      CommitIsNormal(current, p.nodeID, p.workflowID, p.feed, p.result);
      CommitKeepsKey(lower, current, p.nodeID, p.workflowID, p.feed, p.result);
    }
  }

  /** sourceStateUpdateList: the values of the map in any order; upserting them adds the whole map. */
  method CommitList(shape: Shape<SourceState>, commits: map<string, SourceState>) returns (updates: seq<SourceState>)
    requires CommitsReady(shape, commits)
    ensures forall m :: Updated(shape, m, updates) == m + commits
    ensures forall i :: 0 <= i < |updates| ==> shape.key(shape.normalize(updates[i])) in commits
  {
    updates := [];
    var remaining := commits.Keys;
    while remaining != {}
      invariant remaining <= commits.Keys
      invariant forall m :: Updated(shape, m, updates) == m + (commits - remaining)
      invariant forall i :: 0 <= i < |updates| ==> shape.key(shape.normalize(updates[i])) in commits
      decreases remaining
    {
      var k :| k in remaining;
      ghost var before, left := updates, remaining;
      updates := updates + [commits[k]];
      remaining := remaining - {k};
      assert updates[..|before|] == before;
      forall m
        ensures Updated(shape, m, updates) == m + (commits - remaining)
      {
        assert Updated(shape, m, updates) == (m + (commits - left))[k := commits[k]];
      }
    }
    assert commits - remaining == commits;
  }
}
