/**
 * The extraction core of the vlr.gg scraper: the field rules that turn one
 * match card or event card into a record, and the three page extractors
 * (latest matches, live matches, upcoming events). The HTTP fetch is a
 * parameter `fetch` from URL to parsed page, `None` standing for a failed
 * request.
 */
module VlrScraper {
  import opened Wrappers
  import opened Strings
  import opened Seqs
  import opened Html

  const BASE_URL := "https://www.vlr.gg"
  const MATCHES_URL := BASE_URL + "/matches"
  const EVENTS_URL := BASE_URL + "/events"

  /** The dictionary keys the parsers write; `KeyName` is their spelling in the records. */
  datatype Key =
    | Url | Team1 | Team2 | Score1 | Score2 | Status | Event | Format
    | Name | Dates | Prize | Location

  function KeyName(k: Key): string {
    match k
    case Url => "url"
    case Team1 => "team1"
    case Team2 => "team2"
    case Score1 => "score1"
    case Score2 => "score2"
    case Status => "status"
    case Event => "event"
    case Format => "format"
    case Name => "name"
    case Dates => "dates"
    case Prize => "prize"
    case Location => "location"
  }

  /** Distinct keys are spelled differently, so a record over `Key` is a dictionary over their names. */
  lemma KeyNameInjective(a: Key, b: Key)
    ensures KeyName(a) == KeyName(b) ==> a == b
  {
  }

  /** A match record: every value is extracted text. */
  type MatchRecord = map<Key, string>

  /** An event record: `location` may be bound to `None` (a JSON null). */
  type EventRecord = map<Key, Option<string>>

  /** The team rule: the texts of the first two `div.text-of`, when there are two. */
  function AddTeams(r: MatchRecord, card: Node): MatchRecord {
    var teams := FindAll(card, "div", "text-of");
    if |teams| >= 2 then r[Team1 := Text(teams[0])][Team2 := Text(teams[1])] else r
  }

  /** The score rule: the texts of the first two `div.match-item-vs-team-score`, when there are two. */
  function AddScores(r: MatchRecord, card: Node): MatchRecord {
    var scores := FindAll(card, "div", "match-item-vs-team-score");
    if |scores| >= 2 then r[Score1 := Text(scores[0])][Score2 := Text(scores[1])] else r
  }

  /** The status rule: the text of the first `div.ml-status`. */
  function AddStatus(r: MatchRecord, card: Node): MatchRecord {
    match Find(card, "div", "ml-status")
    case Some(st) => r[Status := Text(st)]
    case None => r
  }

  /** The event rule: the series text inside the first `div.match-item-event`. */
  function AddEvent(r: MatchRecord, card: Node): MatchRecord {
    match Find(card, "div", "match-item-event")
    case Some(ev) => (
      match Find(ev, "div", "match-item-event-series")
      case Some(series) => r[Event := Text(series)]
      case None => r)
    case None => r
  }

  /** The format rule: the text of the first `div.ml-eta`. */
  function AddFormat(r: MatchRecord, card: Node): MatchRecord {
    match Find(card, "div", "ml-eta")
    case Some(eta) => r[Format := Text(eta)]
    case None => r
  }

  /**
   * The record `_parse_match_card` builds from a card: each field rule, in the
   * source's order, adds its keys when its elements are present.
   */
  function MatchFields(card: Node): (r: MatchRecord)
    ensures Url in r && r[Url] == BASE_URL + HrefOr(card)
    ensures r.Keys <= {Url, Team1, Team2, Score1, Score2, Status, Event, Format}
  {
    var r := map[Url := BASE_URL + HrefOr(card)];
    AddFormat(AddEvent(AddStatus(AddScores(AddTeams(r, card), card), card), card), card)
  }

  /** `team1`/`team2` are both present exactly when two `div.text-of` exist, holding the first two texts. */
  lemma MatchTeams(card: Node)
    ensures var r, teams := MatchFields(card), FindAll(card, "div", "text-of");
      && (Team1 in r <==> |teams| >= 2) && (Team2 in r <==> |teams| >= 2)
      && (|teams| >= 2 ==> r[Team1] == Text(teams[0]) && r[Team2] == Text(teams[1]))
  {
  }

  /** `score1`/`score2` follow the same rule over `div.match-item-vs-team-score`. */
  lemma MatchScores(card: Node)
    ensures var r, scores := MatchFields(card), FindAll(card, "div", "match-item-vs-team-score");
      && (Score1 in r <==> |scores| >= 2) && (Score2 in r <==> |scores| >= 2)
      && (|scores| >= 2 ==> r[Score1] == Text(scores[0]) && r[Score2] == Text(scores[1]))
  {
  }

  /** `status` is present exactly when a `div.ml-status` exists, and is the text of the first one. */
  lemma MatchStatus(card: Node)
    ensures var r, st := MatchFields(card), FindAll(card, "div", "ml-status");
      && (Status in r <==> |st| >= 1)
      && (|st| >= 1 ==> r[Status] == Text(st[0]))
  {
  }

  /**
   * `event` is present exactly when a `div.match-item-event` exists and the first
   * one holds a `div.match-item-event-series`; it is the first such series' text.
   */
  lemma MatchEvent(card: Node)
    ensures var r, ev := MatchFields(card), FindAll(card, "div", "match-item-event");
      && (Event in r <==> |ev| >= 1 && |FindAll(ev[0], "div", "match-item-event-series")| >= 1)
      && (Event in r ==> r[Event] == Text(FindAll(ev[0], "div", "match-item-event-series")[0]))
  {
  }

  /** `format` is present exactly when a `div.ml-eta` exists, and is the text of the first one. */
  lemma MatchFormat(card: Node)
    ensures var r, eta := MatchFields(card), FindAll(card, "div", "ml-eta");
      && (Format in r <==> |eta| >= 1)
      && (|eta| >= 1 ==> r[Format] == Text(eta[0]))
  {
  }

  /** A card that is only an anchor still yields a record: its `url` and nothing else. */
  lemma BareMatchCard(href: Option<string>)
    ensures MatchFields(Element("a", {"wf-module-item"}, href, [])) == map[Url := BASE_URL + href.GetOr("")]
  {
    var card := Element("a", {"wf-module-item"}, href, []);
    assert FindAll(card, "div", "text-of") == [];
    assert FindAll(card, "div", "match-item-vs-team-score") == [];
    assert FindAll(card, "div", "ml-status") == [];
    assert FindAll(card, "div", "match-item-event") == [];
    assert FindAll(card, "div", "ml-eta") == [];
    assert MatchFields(card).Keys == {Url};
  }

  /** `_parse_match_card` as a function: the record, or nothing when it is empty. */
  function MatchCard(card: Node): Option<MatchRecord> {
    var fields := MatchFields(card);
    if fields != map[] then Some(fields) else None
  }

  /** `_parse_match_card`: fills the record field by field, in the source's order. */
  method ParseMatchCard(card: Node) returns (r: Option<MatchRecord>)
    ensures r == MatchCard(card)
    ensures r.Some? && Url in r.value
  {
    var info: MatchRecord := map[];
    info := info[Url := BASE_URL + HrefOr(card)];
    ghost var prev := info;

    var teams := FindAll(card, "div", "text-of");
    if |teams| >= 2 {
      info := info[Team1 := Text(teams[0])];
      info := info[Team2 := Text(teams[1])];
      assert info == AddTeams(prev, card);
    }
    prev := info;

    var scores := FindAll(card, "div", "match-item-vs-team-score");
    if |scores| >= 2 {
      info := info[Score1 := Text(scores[0])];
      info := info[Score2 := Text(scores[1])];
      assert info == AddScores(prev, card);
    }
    prev := info;

    var timeElem := Find(card, "div", "ml-status");
    if timeElem.Some? {
      info := info[Status := Text(timeElem.value)];
    }
    assert info == AddStatus(prev, card);
    prev := info;

    var eventElem := Find(card, "div", "match-item-event");
    if eventElem.Some? {
      var eventSeries := Find(eventElem.value, "div", "match-item-event-series");
      if eventSeries.Some? {
        info := info[Event := Text(eventSeries.value)];
      }
    }
    assert info == AddEvent(prev, card);
    prev := info;

    var etaElem := Find(card, "div", "ml-eta");
    if etaElem.Some? {
      info := info[Format := Text(etaElem.value)];
    }
    assert info == AddFormat(prev, card);

    assert info == MatchFields(card);
    r := if info != map[] then Some(info) else None;
  }

  /** The name rule: the text of the first `div.event-item-title`. */
  function AddName(r: EventRecord, card: Node): EventRecord {
    match Find(card, "div", "event-item-title")
    case Some(title) => r[Name := Some(Text(title))]
    case None => r
  }

  /** The dates rule: the text of the first `div.event-item-desc-item-value`. */
  function AddDates(r: EventRecord, card: Node): EventRecord {
    match Find(card, "div", "event-item-desc-item-value")
    case Some(dates) => r[Dates := Some(Text(dates))]
    case None => r
  }

  /** The prize rule: the text of the second `div.event-item-desc-item-value`, when there are two. */
  function AddPrize(r: EventRecord, card: Node): EventRecord {
    var values := FindAll(card, "div", "event-item-desc-item-value");
    if |values| > 1 then r[Prize := Some(Text(values[1]))] else r
  }

  /**
   * The location rule: inside the first `div.event-item-desc-item`, find the
   * `i.fa-location-dot` icon; bind `location` to the text of the first value
   * element under the icon's parent, or to `None` when the parent holds none.
   */
  function AddLocation(r: EventRecord, card: Node): EventRecord {
    match Find(card, "div", "event-item-desc-item")
    case Some(item) => (
      match FindEdge(item, "i", "fa-location-dot")
      case Some(icon) => (
        match Find(icon.parent, "div", "event-item-desc-item-value")
        case Some(value) => r[Location := Some(Text(value))]
        case None => r[Location := None])
      case None => r)
    case None => r
  }

  /** The status rule: the text of the first `div.event-item-status`. */
  function AddEventStatus(r: EventRecord, card: Node): EventRecord {
    match Find(card, "div", "event-item-status")
    case Some(st) => r[Status := Some(Text(st))]
    case None => r
  }

  /**
   * The record `_parse_event_card` builds from a card, rule by rule in the
   * source's order. `prize` re-reads the whole list of value elements and takes
   * the second; `location` looks only inside the first `div.event-item-desc-item`
   * and is bound to `None` when the icon's parent holds no value element.
   */
  function EventFields(card: Node): (r: EventRecord)
    ensures Url in r && r[Url] == Some(BASE_URL + HrefOr(card))
    ensures r.Keys <= {Url, Name, Dates, Prize, Location, Status}
    ensures forall k :: k in r && k != Location ==> r[k].Some?
  {
    var r := map[Url := Some(BASE_URL + HrefOr(card))];
    AddEventStatus(AddLocation(AddPrize(AddDates(AddName(r, card), card), card), card), card)
  }

  /** `name` is present exactly when a `div.event-item-title` exists, and is the text of the first one. */
  lemma EventName(card: Node)
    ensures var r, titles := EventFields(card), FindAll(card, "div", "event-item-title");
      && (Name in r <==> |titles| >= 1)
      && (|titles| >= 1 ==> r[Name] == Some(Text(titles[0])))
  {
  }

  /**
   * `dates` is the first `div.event-item-desc-item-value` and `prize` the second,
   * each present exactly when that many exist; so a prize never comes without dates.
   */
  lemma EventDatesPrize(card: Node)
    ensures var r, values := EventFields(card), FindAll(card, "div", "event-item-desc-item-value");
      && (Dates in r <==> |values| >= 1)
      && (|values| >= 1 ==> r[Dates] == Some(Text(values[0])))
      && (Prize in r <==> |values| >= 2)
      && (|values| >= 2 ==> r[Prize] == Some(Text(values[1])))
      && (Prize in r ==> Dates in r)
  {
  }

  /**
   * `location` is set exactly when the FIRST `div.event-item-desc-item` holds an
   * `i.fa-location-dot`. Its value comes from the icon's parent, which lies inside
   * that item: the text of the parent's first `div.event-item-desc-item-value`,
   * or `None` when the parent holds none.
   */
  lemma EventLocation(card: Node)
    ensures var r, items := EventFields(card), FindAll(card, "div", "event-item-desc-item");
      && (Location in r <==> |items| >= 1 && |FindAll(items[0], "i", "fa-location-dot")| >= 1)
      && (Location in r ==>
            var icon := FindEdge(items[0], "i", "fa-location-dot").value;
            var values := FindAll(icon.parent, "div", "event-item-desc-item-value");
            && icon.child == FindAll(items[0], "i", "fa-location-dot")[0]
            && icon.parent.Element? && icon.child in icon.parent.children
            && (icon.parent == items[0] || icon.parent in Descendants(items[0]))
            && r[Location] == (if |values| >= 1 then Some(Text(values[0])) else None))
  {
    var items := FindAll(card, "div", "event-item-desc-item");
    if |items| >= 1 {
      FindEdgeFirst(items[0], "i", "fa-location-dot");
      if FindEdge(items[0], "i", "fa-location-dot").Some? {
        FindEdgeParent(items[0], "i", "fa-location-dot");
      }
    }
  }

  /** `status` is present exactly when a `div.event-item-status` exists, and is the text of the first one. */
  lemma EventStatus(card: Node)
    ensures var r, st := EventFields(card), FindAll(card, "div", "event-item-status");
      && (Status in r <==> |st| >= 1)
      && (|st| >= 1 ==> r[Status] == Some(Text(st[0])))
  {
  }

  /** `_parse_event_card` as a function: the record, or nothing when it is empty. */
  function EventCard(card: Node): Option<EventRecord> {
    var fields := EventFields(card);
    if fields != map[] then Some(fields) else None
  }

  /** `_parse_event_card`: fills the record field by field, in the source's order. */
  method ParseEventCard(card: Node) returns (r: Option<EventRecord>)
    ensures r == EventCard(card)
    ensures r.Some? && Url in r.value
  {
    var info: EventRecord := map[];
    info := info[Url := Some(BASE_URL + HrefOr(card))];
    ghost var prev := info;

    var titleElem := Find(card, "div", "event-item-title");
    if titleElem.Some? {
      info := info[Name := Some(Text(titleElem.value))];
    }
    assert info == AddName(prev, card);
    prev := info;

    var datesElem := Find(card, "div", "event-item-desc-item-value");
    if datesElem.Some? {
      info := info[Dates := Some(Text(datesElem.value))];
    }
    assert info == AddDates(prev, card);
    prev := info;

    var prizeElems := FindAll(card, "div", "event-item-desc-item-value");
    if |prizeElems| > 1 {
      info := info[Prize := Some(Text(prizeElems[1]))];
    }
    assert info == AddPrize(prev, card);
    prev := info;

    var locationElem := Find(card, "div", "event-item-desc-item");
    if locationElem.Some? {
      // The icon's parent always exists: the icon was found below `locationElem`.
      var locationIcon := FindEdge(locationElem.value, "i", "fa-location-dot");
      if locationIcon.Some? {
        var location := Find(locationIcon.value.parent, "div", "event-item-desc-item-value");
        info := info[Location := None];
        if location.Some? {
          info := info[Location := Some(Text(location.value))];
        }
      }
    }
    assert info == AddLocation(prev, card);
    prev := info;

    var statusElem := Find(card, "div", "event-item-status");
    if statusElem.Some? {
      info := info[Status := Some(Text(statusElem.value))];
    }
    assert info == AddEventStatus(prev, card);

    assert info == EventFields(card);
    r := if info != map[] then Some(info) else None;
  }

  // ---------------------------------------------------------------------
  // Page extractors.
  // ---------------------------------------------------------------------

  /** The status rule of `get_live_matches`: the upper-cased text contains `LIVE`. */
  predicate IsLiveStatus(s: string) {
    Contains(ToUpper(s), "LIVE")
  }

  /** A card is live when its first `div.ml-status` exists and has a live status text. */
  predicate IsLive(card: Node) {
    match Find(card, "div", "ml-status")
    case Some(st) => IsLiveStatus(Text(st))
    case None => false
  }

  /** The status test ignores ASCII case and looks for a substring. */
  lemma LiveStatusMatches()
    ensures IsLiveStatus("LIVE") && IsLiveStatus("live") && IsLiveStatus("Live now")
  {
    assert ToUpper("live") == "LIVE";
    assert ToUpper("Live now") == "LIVE NOW";
    assert IsPrefix("LIVE", "LIVE NOW");
  }

  /** The live test needs a `v`: a status text without one, in either case, is never live. */
  lemma WithoutVNotLive(s: string)
    requires forall i :: 0 <= i < |s| ==> s[i] != 'v' && s[i] != 'V'
    ensures !IsLiveStatus(s)
  {
    var u := ToUpper(s);
    forall i
      ensures !OccursAt(u, "LIVE", i)
    {
      if 0 <= i <= |u| - 4 {
        assert u[i..i + 4][2] == u[i + 2];
      }
    }
    ContainsAt(u, "LIVE");
  }

  /** Scheduled and finished matches are not live, although `Final` contains an `L`. */
  lemma NotLiveStatuses()
    ensures !IsLiveStatus("Upcoming") && !IsLiveStatus("Final")
  {
    WithoutVNotLive("Upcoming");
    WithoutVNotLive("Final");
  }

  /** Parsing a match card never yields the empty record: `url` is always set. */
  lemma MatchCardTotal(cards: seq<Node>)
    ensures |Collect(MatchCard, cards)| == |cards|
    ensures forall i :: 0 <= i < |cards| ==> Collect(MatchCard, cards)[i] == MatchFields(cards[i])
  {
    CollectTotal(MatchCard, cards);
  }

  /** Parsing an event card never yields the empty record: `url` is always set. */
  lemma EventCardTotal(cards: seq<Node>)
    ensures |Collect(EventCard, cards)| == |cards|
    ensures forall i :: 0 <= i < |cards| ==> Collect(EventCard, cards)[i] == EventFields(cards[i])
  {
    CollectTotal(EventCard, cards);
  }

  /**
   * The live selection keeps exactly the live cards, each as often as it occurs,
   * so a card without a `div.ml-status` is never among them.
   */
  lemma LiveCards(cards: seq<Node>)
    ensures forall c :: c in Filter(IsLive, cards) <==> c in cards && IsLive(c)
    ensures forall c :: IsLive(c) ==> multiset(Filter(IsLive, cards))[c] == multiset(cards)[c]
    ensures forall c :: Find(c, "div", "ml-status").None? ==> c !in Filter(IsLive, cards)
  {
    FilterSpec(IsLive, cards);
  }

  /** Every record of the live list carries a `status` whose upper-cased text contains `LIVE`. */
  lemma LiveRecordsAreLive(cards: seq<Node>)
    ensures forall m :: m in Collect(MatchCard, Filter(IsLive, cards)) ==> Status in m && IsLiveStatus(m[Status])
  {
    forall m | m in Collect(MatchCard, Filter(IsLive, cards))
      ensures Status in m && IsLiveStatus(m[Status])
    {
      CollectFrom(MatchCard, Filter(IsLive, cards), m);
      var c :| c in Filter(IsLive, cards) && MatchCard(c) == Some(m);
      FilterSpec(IsLive, cards);
      MatchStatus(c);
    }
  }

  /** One more card extends the live records by that card's record exactly when it is live. */
  lemma LiveStep(cards: seq<Node>, i: nat)
    requires i < |cards|
    ensures Collect(MatchCard, Filter(IsLive, cards[..i + 1])) ==
      Collect(MatchCard, Filter(IsLive, cards[..i])) + (if IsLive(cards[i]) then [MatchFields(cards[i])] else [])
  {
    assert cards[..i + 1][..i] == cards[..i];
    CollectConcat(MatchCard, Filter(IsLive, cards[..i]), if IsLive(cards[i]) then [cards[i]] else []);
  }

  /**
   * `get_latest_matches(limit)`: fetches the matches page and parses the first
   * `limit` match cards, keeping every non-empty record in document order.
   */
  method GetLatestMatches(fetch: string -> Option<Node>, limit: int) returns (matches: seq<MatchRecord>)
    requires limit > 0
    ensures fetch(MATCHES_URL).None? ==> matches == []
    ensures fetch(MATCHES_URL).Some? ==>
      matches == Collect(MatchCard, Take(FindAll(fetch(MATCHES_URL).value, "a", "wf-module-item"), limit))
    ensures |matches| <= limit
    ensures fetch(MATCHES_URL).Some? ==>
      var cards := FindAll(fetch(MATCHES_URL).value, "a", "wf-module-item");
      && |matches| == (if limit < |cards| then limit else |cards|)
      && forall i :: 0 <= i < |matches| ==> matches[i] == MatchFields(cards[i])
    ensures forall m :: m in matches ==> Url in m
  {
    var page := fetch(MATCHES_URL);
    if page.None? {
      return [];
    }
    var matchCards := Take(FindAll(page.value, "a", "wf-module-item"), limit);
    matches := [];
    for i := 0 to |matchCards|
      invariant matches == Collect(MatchCard, matchCards[..i])
    {
      var matchData := ParseMatchCard(matchCards[i]);
      if matchData.Some? {
        matches := matches + [matchData.value];
      }
      assert matchCards[..i + 1][..i] == matchCards[..i];
    }
    assert matchCards[..|matchCards|] == matchCards;
    MatchCardTotal(matchCards);
  }

  /**
   * `get_upcoming_events(limit)`: fetches the events page and parses the first
   * `limit` event cards, keeping every non-empty record in document order.
   */
  method GetUpcomingEvents(fetch: string -> Option<Node>, limit: int) returns (events: seq<EventRecord>)
    requires limit > 0
    ensures fetch(EVENTS_URL).None? ==> events == []
    ensures fetch(EVENTS_URL).Some? ==>
      events == Collect(EventCard, Take(FindAll(fetch(EVENTS_URL).value, "a", "wf-card"), limit))
    ensures |events| <= limit
    ensures fetch(EVENTS_URL).Some? ==>
      var cards := FindAll(fetch(EVENTS_URL).value, "a", "wf-card");
      && |events| == (if limit < |cards| then limit else |cards|)
      && forall i :: 0 <= i < |events| ==> events[i] == EventFields(cards[i])
  {
    var page := fetch(EVENTS_URL);
    if page.None? {
      return [];
    }
    var eventCards := Take(FindAll(page.value, "a", "wf-card"), limit);
    events := [];
    for i := 0 to |eventCards|
      invariant events == Collect(EventCard, eventCards[..i])
    {
      var eventData := ParseEventCard(eventCards[i]);
      if eventData.Some? {
        events := events + [eventData.value];
      }
      assert eventCards[..i + 1][..i] == eventCards[..i];
    }
    assert eventCards[..|eventCards|] == eventCards;
    EventCardTotal(eventCards);
  }

  /**
   * `get_live_matches()`: fetches the matches page and parses every match card
   * whose status is live, with no count limit, in document order.
   */
  method GetLiveMatches(fetch: string -> Option<Node>) returns (liveMatches: seq<MatchRecord>)
    ensures fetch(MATCHES_URL).None? ==> liveMatches == []
    ensures fetch(MATCHES_URL).Some? ==>
      liveMatches == Collect(MatchCard, Filter(IsLive, FindAll(fetch(MATCHES_URL).value, "a", "wf-module-item")))
    ensures fetch(MATCHES_URL).Some? ==>
      |liveMatches| == |Filter(IsLive, FindAll(fetch(MATCHES_URL).value, "a", "wf-module-item"))|
    ensures forall m :: m in liveMatches ==> Status in m && IsLiveStatus(m[Status])
  {
    var page := fetch(MATCHES_URL);
    if page.None? {
      return [];
    }
    var matchCards := FindAll(page.value, "a", "wf-module-item");
    liveMatches := [];
    for i := 0 to |matchCards|
      invariant liveMatches == Collect(MatchCard, Filter(IsLive, matchCards[..i]))
    {
      var card := matchCards[i];
      LiveStep(matchCards, i);
      var statusElem := Find(card, "div", "ml-status");
      if statusElem.Some? && Contains(ToUpper(Text(statusElem.value)), "LIVE") {
        var matchData := ParseMatchCard(card);
        if matchData.Some? {
          liveMatches := liveMatches + [matchData.value];
        }
      }
    }
    assert matchCards[..|matchCards|] == matchCards;
    MatchCardTotal(Filter(IsLive, matchCards));
    LiveRecordsAreLive(matchCards);
  }
}
