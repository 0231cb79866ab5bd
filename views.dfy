/**
 The three render passes of `updateDisplay` and `updateMap`: the numbered
 list, the timeline and the route map. Each pass rebuilds its view from the
 array with an index loop; here a view is structured data rather than HTML.
 Trip name, start and end date are read from the page at render time and
 the footer's generation date from the clock, so all four are parameters.
 */
module Views {
  import opened Order
  import opened Store

  const DefaultTripName: string := "My Travel Itinerary"
  const EmptyListNotice: string := "No destinations added yet"
  const EmptyMapNotice: string := "Add destinations to see route visualization"

  /** One list item: its 1-based position, the record's fields and the index
      its Remove button passes to `removeDestination`. */
  datatype ListEntry = ListEntry(position: nat, name: string, date: string, time: string, removeIndex: nat)

  /** The list pane: header, total, items, the empty-state notice (empty text
      when there is none), footer date. */
  datatype ListView = ListView(
    title: string, fromText: string, toText: string, total: nat,
    entries: seq<ListEntry>, notice: string, generatedOn: string)

  /** One timeline block: "Stop k: name", then date and time. */
  datatype TimelineItem = TimelineItem(stop: nat, name: string, date: string, time: string)

  /** A route point with its 1-based marker, or the line drawn between two points. */
  datatype RouteToken = Point(marker: nat, name: string) | Connector

  datatype MapView = Placeholder(message: string) | Route(tokens: seq<RouteToken>)

  /** The list items the render loop should produce. */
  function ListEntries(s: seq<Destination>): seq<ListEntry> {
    seq(|s|, k requires 0 <= k < |s| => ListEntry(k + 1, s[k].name, s[k].date, s[k].time, k))
  }

  /** The timeline blocks the render loop should produce. */
  function TimelineItems(s: seq<Destination>): seq<TimelineItem> {
    seq(|s|, k requires 0 <= k < |s| => TimelineItem(k + 1, s[k].name, s[k].date, s[k].time))
  }

  /** Route points at even positions, connectors at odd ones. */
  function RouteTokens(s: seq<Destination>): seq<RouteToken> {
    if s == [] then []
    else seq(2 * |s| - 1, j requires 0 <= j < 2 * |s| - 1 =>
               if j % 2 == 0 then Point(j / 2 + 1, s[j / 2].name) else Connector)
  }

  /** The map pane the render pass should produce. */
  function MapOf(s: seq<Destination>): MapView {
    if s == [] then Placeholder(EmptyMapNotice) else Route(RouteTokens(s))
  }

  /** The list pane, built as `updateDisplay` builds `listHTML`. */
  method RenderList(s: seq<Destination>, tripName: string, startDate: string, endDate: string,
                    generatedOn: string)
    returns (view: ListView)
    ensures view.title == if tripName == "" then DefaultTripName else tripName
    ensures view.fromText == if startDate == "" then "" else "From: " + startDate
    ensures view.toText == if endDate == "" then "" else "To: " + endDate
    ensures view.total == |s|
    ensures view.entries == ListEntries(s)
    ensures view.notice == EmptyListNotice <==> |s| == 0
    ensures |s| > 0 ==> view.notice == ""
    ensures view.generatedOn == generatedOn
  {
    var title := if tripName == "" then DefaultTripName else tripName;
    var fromText := if startDate == "" then "" else "From: " + startDate;
    var toText := if endDate == "" then "" else "To: " + endDate;
    var entries: seq<ListEntry> := [];
    var i := 0;
    while i < |s|
      invariant 0 <= i <= |s|
      invariant |entries| == i
      invariant forall k :: 0 <= k < i ==> entries[k] == ListEntry(k + 1, s[k].name, s[k].date, s[k].time, k)
    {
      entries := entries + [ListEntry(i + 1, s[i].name, s[i].date, s[i].time, i)];
      i := i + 1;
    }
    var notice := if |s| == 0 then EmptyListNotice else "";
    view := ListView(title, fromText, toText, |s|, entries, notice, generatedOn);
  }

  /** The timeline pane, built as `updateDisplay` builds `timelineHTML`. */
  method RenderTimeline(s: seq<Destination>) returns (items: seq<TimelineItem>)
    ensures items == TimelineItems(s)
  {
    items := [];
    var i := 0;
    while i < |s|
      invariant 0 <= i <= |s|
      invariant |items| == i
      invariant forall k :: 0 <= k < i ==> items[k] == TimelineItem(k + 1, s[k].name, s[k].date, s[k].time)
    {
      items := items + [TimelineItem(i + 1, s[i].name, s[i].date, s[i].time)];
      i := i + 1;
    }
  }

  /** The map pane, built as `updateMap` builds `mapHTML`: a point per
      destination and a connector after each point except the last. */
  method RenderMap(s: seq<Destination>) returns (view: MapView)
    ensures view == MapOf(s)
  {
    if |s| == 0 {
      return Placeholder(EmptyMapNotice);
    }
    var tokens: seq<RouteToken> := [];
    var i := 0;
    while i < |s|
      invariant 0 <= i <= |s|
      invariant |tokens| == if i == |s| then 2 * i - 1 else 2 * i
      invariant forall j :: 0 <= j < |tokens| ==>
                  tokens[j] == if j % 2 == 0 then Point(j / 2 + 1, s[j / 2].name) else Connector
    {
      tokens := tokens + [Point(i + 1, s[i].name)];
      if i < |s| - 1 {
        tokens := tokens + [Connector];
      }
      i := i + 1;
    }
    view := Route(tokens);
  }

  /** How many route points a token sequence has. */
  function Points(t: seq<RouteToken>): nat {
    if t == [] then 0 else Points(t[..|t| - 1]) + (if t[|t| - 1].Point? then 1 else 0)
  }

  /** How many connectors a token sequence has. */
  function Connectors(t: seq<RouteToken>): nat {
    if t == [] then 0 else Connectors(t[..|t| - 1]) + (if t[|t| - 1].Connector? then 1 else 0)
  }

  /** In an alternating sequence starting with a point, a prefix of length m
      has (m + 1) / 2 points and m / 2 connectors. */
  lemma {:induction false} AlternatingCounts(t: seq<RouteToken>, m: nat)
    requires m <= |t|
    requires forall j :: 0 <= j < |t| ==> (t[j].Point? <==> j % 2 == 0)
    ensures Points(t[..m]) == (m + 1) / 2
    ensures Connectors(t[..m]) == m / 2
  {
    if m > 0 {
      AlternatingCounts(t, m - 1);
      assert t[..m][..m - 1] == t[..m - 1];
    }
  }

  /** The map view: the placeholder exactly when there are no destinations;
      otherwise n route points and n - 1 connectors. */
  lemma MapShape(s: seq<Destination>)
    ensures MapOf(s).Placeholder? <==> |s| == 0
    ensures |s| == 0 ==> MapOf(s).message == EmptyMapNotice
    ensures |s| > 0 ==> Points(MapOf(s).tokens) == |s| && Connectors(MapOf(s).tokens) == |s| - 1
  {
    if |s| > 0 {
      var t := RouteTokens(s);
      var n := |s|;
      assert t[..|t|] == t;
      RouteAlternates(s);
      AlternatingCounts(t, |t|);
      assert |t| == 2 * n - 1;
      assert (2 * n - 1 + 1) / 2 == n;
      assert (2 * n - 1) / 2 == n - 1;
    }
  }

  /** The route runs point 1, connector, point 2, ..., point n: a connector
      between each consecutive pair of points and none after the last. */
  lemma RouteLayout(s: seq<Destination>)
    requires s != []
    ensures var t := RouteTokens(s);
      && |t| == 2 * |s| - 1
      && (forall k :: 0 <= k < |s| ==> t[2 * k] == Point(k + 1, s[k].name))
      && (forall k :: 0 <= k < |s| - 1 ==> t[2 * k + 1] == Connector)
      && t[|t| - 1] == Point(|s|, s[|s| - 1].name)
  {
    var t := RouteTokens(s);
    forall k | 0 <= k < |s| ensures t[2 * k] == Point(k + 1, s[k].name) {
      PointAt(s, k);
    }
    forall k | 0 <= k < |s| - 1 ensures t[2 * k + 1] == Connector {
      ConnectorAt(s, k);
    }
    PointAt(s, |s| - 1);
  }

  lemma RouteAlternates(s: seq<Destination>)
    requires s != []
    ensures forall j :: 0 <= j < |RouteTokens(s)| ==> (RouteTokens(s)[j].Point? <==> j % 2 == 0)
  {
  }

  lemma PointAt(s: seq<Destination>, k: nat)
    requires k < |s|
    ensures RouteTokens(s)[2 * k] == Point(k + 1, s[k].name)
  {
    assert (2 * k) / 2 == k && (2 * k) % 2 == 0;
  }

  lemma ConnectorAt(s: seq<Destination>, k: nat)
    requires k + 1 < |s|
    ensures RouteTokens(s)[2 * k + 1] == Connector
  {
    assert (2 * k + 1) % 2 == 1;
  }

  /** The list view numbers the entries 1..n in array order and reports n;
      the empty notice appears exactly when n = 0. The timeline holds one
      "Stop k" block per destination and is empty when n = 0, without a notice. */
  lemma ListAndTimelineShape(s: seq<Destination>)
    ensures |ListEntries(s)| == |s| && |TimelineItems(s)| == |s|
    ensures TimelineItems(s) == [] <==> s == []
    ensures forall k :: 0 <= k < |s| ==>
      && ListEntries(s)[k].position == k + 1
      && ListEntries(s)[k].removeIndex == k
      && TimelineItems(s)[k].stop == k + 1
      && ListEntries(s)[k].name == TimelineItems(s)[k].name == s[k].name
      && ListEntries(s)[k].date == TimelineItems(s)[k].date == s[k].date
      && ListEntries(s)[k].time == TimelineItems(s)[k].time == s[k].time
  {
  }

  /** After removing index i and rendering again, the list omits exactly the
      removed entry: the entries before i are unchanged, the later ones move
      up one place, and the positions run 1..n-1 again. */
  lemma RemoveThenRender(s: seq<Destination>, i: nat)
    requires i < |s|
    ensures var before, after := ListEntries(s), ListEntries(RemoveAt(s, i));
      && |after| == |before| - 1
      && (forall k :: 0 <= k < i ==> after[k] == before[k])
      && (forall k :: i <= k < |after| ==>
            after[k] == before[k + 1].(position := k + 1, removeIndex := k))
      && (forall k :: 0 <= k < |after| ==> after[k].position == k + 1)
  {
    RemoveAtDeletesOne(s, i);
  }
}
