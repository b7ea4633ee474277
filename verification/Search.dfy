/** The early-stopping search over plans (internal/core/search/engine.go, helpers.go) against its full version. */
module Search {
  import opened Outcomes
  import opened Lists
  import opened Text

  datatype SearchItem = SearchItem(title: string, source: string, link: string, publishedAt: string, snippet: string)

  /** What the provider answers to one plan. */
  datatype PlanResult = Failed(plan: string, error: string) | Found(plan: string, items: seq<SearchItem>)

  /** The identity of an item, for a given lower-casing of strings. */
  function ItemKey(lower: string -> string, item: SearchItem): string {
    lower(TrimSpace(item.title)) + "|" + TrimSpace(item.link)
  }

  lemma LastBar(title: string, link: string)
    requires '|' !in link
    ensures (title + "|" + link)[|title|] == '|'
    ensures forall i :: |title| < i < |title + "|" + link| ==> (title + "|" + link)[i] != '|'
    ensures (title + "|" + link)[..|title|] == title && (title + "|" + link)[|title| + 1..] == link
  {
    forall i | |title| < i < |title + "|" + link|
      ensures (title + "|" + link)[i] != '|'
    {
      assert (title + "|" + link)[i] == link[i - |title| - 1];
      assert link[i - |title| - 1] in link;
    }
  }

  /** When links have no bar, items have one identity exactly if their links agree and their titles but for case. */
  lemma SameItemIff(lower: string -> string, a: SearchItem, b: SearchItem)
    requires '|' !in TrimSpace(a.link) && '|' !in TrimSpace(b.link)
    ensures ItemKey(lower, a) == ItemKey(lower, b) <==>
            lower(TrimSpace(a.title)) == lower(TrimSpace(b.title)) && TrimSpace(a.link) == TrimSpace(b.link)
  {
    hide TrimSpace;
    LastBar(lower(TrimSpace(a.title)), TrimSpace(a.link));
    LastBar(lower(TrimSpace(b.title)), TrimSpace(b.link));
  }

  function KeysOf(lower: string -> string, items: seq<SearchItem>): set<string> {
    set item | item in items && TrimSpace(item.title) != "" :: ItemKey(lower, item)
  }

  /** The first item of every identity, untitled items dropped. */
  function Dedup(lower: string -> string, items: seq<SearchItem>): seq<SearchItem> {
    if items == [] then []
    else
      var front, last := items[..|items| - 1], items[|items| - 1];
      if TrimSpace(last.title) == "" || ItemKey(lower, last) in KeysOf(lower, front) then Dedup(lower, front)
      else Dedup(lower, front) + [last]
  }

  lemma DedupNext(lower: string -> string, items: seq<SearchItem>, item: SearchItem)
    ensures var isNew := TrimSpace(item.title) != "" && ItemKey(lower, item) !in KeysOf(lower, items);
            Dedup(lower, items + [item]) == Dedup(lower, items) + (if isNew then [item] else [])
    ensures KeysOf(lower, items + [item])
         == KeysOf(lower, items) + (if TrimSpace(item.title) != "" then {ItemKey(lower, item)} else {})
  {
    hide TrimSpace, ItemKey;
    assert (items + [item])[..|items|] == items;
  }

  method DedupSearchItems(lower: string -> string, items: seq<SearchItem>) returns (out: seq<SearchItem>)
    ensures out == Dedup(lower, items)
  {
    hide TrimSpace, ItemKey;
    out := [];
    var seen: set<string> := {};
    for i := 0 to |items|
      invariant out == Dedup(lower, items[..i]) && seen == KeysOf(lower, items[..i])
    {
      DedupNext(lower, items[..i], items[i]);
      assert items[..i + 1] == items[..i] + [items[i]];
      var key := ItemKey(lower, items[i]);
      if key !in seen && TrimSpace(items[i].title) != "" {
        seen := seen + {key};
        out := out + [items[i]];
      }
    }
    assert items[..|items|] == items;
  }

  /** Deduplication keeps exactly one item of every identity that occurs. */
  lemma {:induction false} DedupKeepsOneOfEach(lower: string -> string, items: seq<SearchItem>)
    ensures KeysOf(lower, Dedup(lower, items)) == KeysOf(lower, items)
    ensures forall item :: item in Dedup(lower, items) ==> item in items && TrimSpace(item.title) != ""
    ensures var d := Dedup(lower, items);
            forall i, j :: 0 <= i < j < |d| ==> ItemKey(lower, d[i]) != ItemKey(lower, d[j])
  {
    hide TrimSpace, ItemKey;
    if items != [] {
      var front, last := items[..|items| - 1], items[|items| - 1];
      assert items == front + [last];
      DedupKeepsOneOfEach(lower, front);
      var d := Dedup(lower, front);
      DedupNext(lower, front, last);
      DedupNext(lower, d, last);
      forall i | 0 <= i < |d|
        ensures ItemKey(lower, d[i]) in KeysOf(lower, front)
      {
        assert d[i] in d;
      }
    }
  }

  /** More results only add items at the end. */
  lemma {:induction false} DedupGrows(lower: string -> string, items: seq<SearchItem>, more: seq<SearchItem>)
    ensures Dedup(lower, items) <= Dedup(lower, items + more)
  {
    if more == [] {
      assert items + more == items;
    } else {
      assert (items + more)[..|items + more| - 1] == items + more[..|more| - 1];
      DedupGrows(lower, items, more[..|more| - 1]);
    }
  }

  function AllItems(plans: seq<PlanResult>): seq<SearchItem> {
    if plans == [] then []
    else AllItems(plans[..|plans| - 1])
         + (match plans[|plans| - 1] case Found(_, items) => items case Failed(_, _) => [])
  }

  function AllErrors(provider: string, plans: seq<PlanResult>): seq<string> {
    if plans == [] then []
    else AllErrors(provider, plans[..|plans| - 1])
         + (match plans[|plans| - 1]
            case Found(_, _) => []
            case Failed(plan, error) => [provider + " " + plan + ": " + error])
  }

  /** The entries of the source chain for the plans that were answered. */
  function AllLabels(plans: seq<PlanResult>): seq<string> {
    if plans == [] then []
    else AllLabels(plans[..|plans| - 1])
         + (match plans[|plans| - 1] case Found(plan, _) => ["search_plan:" + plan] case Failed(_, _) => [])
  }

  /** The items and the errors of the first n plans. */
  ghost function FirstItems(plans: seq<PlanResult>, n: nat): seq<SearchItem>
    requires n <= |plans|
  {
    AllItems(plans[..n])
  }

  ghost function FirstErrors(provider: string, plans: seq<PlanResult>, n: nat): seq<string>
    requires n <= |plans|
  {
    AllErrors(provider, plans[..n])
  }

  ghost function FirstLabels(plans: seq<PlanResult>, n: nat): seq<string>
    requires n <= |plans|
  {
    AllLabels(plans[..n])
  }

  lemma FirstAndLast(lower: string -> string, provider: string, plans: seq<PlanResult>)
    ensures FirstItems(plans, 0) == [] && FirstErrors(provider, plans, 0) == [] && FirstLabels(plans, 0) == []
    ensures Dedup(lower, []) == []
    ensures FirstItems(plans, |plans|) == AllItems(plans)
    ensures FirstErrors(provider, plans, |plans|) == AllErrors(provider, plans)
  {
    assert plans[..|plans|] == plans;
  }

  lemma NextPlan(provider: string, plans: seq<PlanResult>, n: nat)
    requires n < |plans|
    ensures var items, errors, labels := FirstItems(plans, n), FirstErrors(provider, plans, n), FirstLabels(plans, n);
            match plans[n]
            case Found(plan, more) =>
              && FirstItems(plans, n + 1) == items + more && FirstErrors(provider, plans, n + 1) == errors
              && FirstLabels(plans, n + 1) == labels + ["search_plan:" + plan]
            case Failed(plan, e) =>
              && FirstItems(plans, n + 1) == items && FirstLabels(plans, n + 1) == labels
              && FirstErrors(provider, plans, n + 1) == errors + [provider + " " + plan + ": " + e]
  {
    assert plans[..n + 1][..n] == plans[..n];
  }

  /** Deduplicating and truncating the results of all plans. */
  function FullSearch(lower: string -> string, plans: seq<PlanResult>, maxItems: nat): seq<SearchItem> {
    Truncate(Dedup(lower, AllItems(plans)), maxItems)
  }

  lemma {:induction false} ItemsOfMorePlans(plans: seq<PlanResult>, n: nat)
    requires n <= |plans|
    ensures AllItems(plans[..n]) <= AllItems(plans)
    decreases |plans|
  {
    if n < |plans| {
      var front := plans[..|plans| - 1];
      assert front[..n] == plans[..n];
      ItemsOfMorePlans(front, n);
    } else {
      assert plans[..n] == plans;
    }
  }

  /** The first n plans do not bring enough different items. */
  ghost predicate TooFew(lower: string -> string, plans: seq<PlanResult>, n: nat, maxItems: nat)
    requires n <= |plans|
  {
    |Dedup(lower, FirstItems(plans, n))| < maxItems
  }

  /** Once the limit is reached, further plans change nothing. */
  lemma EnoughIsEnough(lower: string -> string, plans: seq<PlanResult>, n: nat, maxItems: nat)
    requires n <= |plans| && maxItems > 0 && !TooFew(lower, plans, n, maxItems)
    ensures Truncate(Dedup(lower, FirstItems(plans, n)), maxItems) == FullSearch(lower, plans, maxItems)
    ensures FullSearch(lower, plans, maxItems) != []
  {
    ItemsOfMorePlans(plans, n);
    var some, all := FirstItems(plans, n), AllItems(plans);
    assert all == some + all[|some|..];
    DedupGrows(lower, some, all[|some|..]);
  }

  function StatusOf(items: seq<SearchItem>, errors: seq<string>): string {
    if items != [] then "search_status:hit"
    else if errors != [] then "search_status:error"
    else "search_status:no_hit"
  }

  const DEFAULT_MAX_ITEMS := 10

  /** Stopping after n plans, because of enough items or at the end, gives the items and status of all plans. */
  lemma SearchDone(lower: string -> string, provider: string, plans: seq<PlanResult>, n: nat, maxItems: nat)
    requires n <= |plans| && maxItems > 0 && (n < |plans| ==> !TooFew(lower, plans, n, maxItems))
    ensures var items := Truncate(Dedup(lower, FirstItems(plans, n)), maxItems);
            && items == FullSearch(lower, plans, maxItems)
            && StatusOf(items, FirstErrors(provider, plans, n)) == StatusOf(items, AllErrors(provider, plans))
  {
    FirstAndLast(lower, provider, plans);
    if n < |plans| {
      EnoughIsEnough(lower, plans, n, maxItems);
    }
  }

  /** The loop over the plans: it stops after the first plan that brings enough different items. */
  method GatherPlans(lower: string -> string, provider: string, plans: seq<PlanResult>, maxItems: nat)
    returns (items: seq<SearchItem>, errors: seq<string>, labels: seq<string>, executed: nat)
    requires maxItems > 0
    ensures StopsAt(lower, plans, executed, maxItems)
    ensures items == FirstItems(plans, executed) && errors == FirstErrors(provider, plans, executed)
    ensures labels == FirstLabels(plans, executed)
  {
    hide FirstItems, FirstErrors, FirstLabels, Dedup;
    FirstAndLast(lower, provider, plans);
    items, errors, labels, executed := [], [], [], 0;
    while executed < |plans|
      invariant executed <= |plans|
      invariant items == FirstItems(plans, executed) && errors == FirstErrors(provider, plans, executed)
      invariant labels == FirstLabels(plans, executed)
      invariant forall n :: 0 <= n <= executed ==> TooFew(lower, plans, n, maxItems)
    {
      NextPlan(provider, plans, executed);
      assert TooFew(lower, plans, executed, maxItems);
      match plans[executed]
      case Failed(plan, error) =>
        errors := errors + [provider + " " + plan + ": " + error];
        executed := executed + 1;
      case Found(plan, found) =>
        items, labels := items + found, labels + ["search_plan:" + plan];
        executed := executed + 1;
        var different := DedupSearchItems(lower, items);
        if |different| >= maxItems {
          break;
        }
    }
  }

  /** The loop ends after the first plan that completes the wanted number of different items, or after all. */
  ghost predicate StopsAt(lower: string -> string, plans: seq<PlanResult>, executed: nat, maxItems: nat) {
    && executed <= |plans|
    && (forall n :: 0 <= n < executed ==> TooFew(lower, plans, n, maxItems))
    && (executed < |plans| ==> !TooFew(lower, plans, executed, maxItems))
  }

  datatype SearchResult = SearchResult(items: seq<SearchItem>, errors: seq<string>, sourceChain: seq<string>)

  datatype SearchError = BadEndpoint

  /** runSerpAPI and runQianfan: neither the items nor the status differ from those of running every plan; errors and
      source chain are those of the plans that were run. Only runSerpAPI parses its endpoint before each plan. */
  method RunPlans(lower: string -> string, provider: string, profileID: string, hasKey: bool, endpointParses: bool,
                  plans: seq<PlanResult>, requested: int)
    returns (r: Result<SearchResult, SearchError>, ghost executed: nat)
    ensures !hasKey ==> r == Ok(SearchResult([], [], ["search_provider:" + provider, "search_status:disabled_no_key"]))
    ensures r.Err? <==> hasKey && !endpointParses && plans != []
    ensures hasKey && r.Ok? ==>
              var maxItems := if requested > 0 then requested else DEFAULT_MAX_ITEMS;
              && StopsAt(lower, plans, executed, maxItems)
              && r.value.items == FullSearch(lower, plans, maxItems)
              && r.value.errors == FirstErrors(provider, plans, executed)
              && r.value.sourceChain
                 == ["search_engine:" + profileID, "search_provider:" + provider] + FirstLabels(plans, executed)
                    + [StatusOf(r.value.items, AllErrors(provider, plans))]
  {
    hide FirstItems, FirstErrors, FirstLabels, Dedup, Truncate, FullSearch, StatusOf, AllErrors, TooFew;
    executed := 0;
    if !hasKey {
      r := Ok(SearchResult([], [], ["search_provider:" + provider, "search_status:disabled_no_key"]));
      return;
    }
    if !endpointParses && plans != [] {
      r := Err(BadEndpoint);
      return;
    }
    var maxItems := if requested > 0 then requested else DEFAULT_MAX_ITEMS;
    var items, errors, labels, n := GatherPlans(lower, provider, plans, maxItems);
    executed := n;
    SearchDone(lower, provider, plans, executed, maxItems);
    items := DedupSearchItems(lower, items);
    items := Truncate(items, maxItems);
    var chain := ["search_engine:" + profileID, "search_provider:" + provider] + labels;
    r := Ok(SearchResult(items, errors, chain + [StatusOf(items, errors)]));
  }
}
