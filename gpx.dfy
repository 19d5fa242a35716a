/**
  Building a GPX 1.1 track log (`gpx/trk/trkseg/trkpt`) from an activity's
  streams, as `Strava.create_gpx_from_streams` does.

  The document is an element tree. Sample values are turned into text by a
  function `str` that the caller supplies, standing for Python's `str()`.
  The specification functions `TrackPoint`, `Track` and `CreateGpx`
  describe the result; the methods `BuildTrackPoint`, `BuildTrackPoints`
  and `CreateGpxFromStreams` build it step by step, as the source does,
  and are proved to produce it.
*/
module Gpx {
  import opened Wrappers
  import opened CivilTime
  import opened Timestamp

  /** An XML element: tag, attributes in insertion order, text and children. */
  datatype Element = Element(tag: string, attrs: seq<(string, string)>, text: Option<string>, children: seq<Element>)

  /** Why no document is produced. */
  datatype Error =
    | MissingStartDate     // `start_date` absent: strptime(None, ...) raises TypeError
    | MalformedTimestamp   // strptime raises ValueError
    | DateOutOfRange       // start + timedelta passes year 9999: OverflowError

  /** One stream of the response; its `data` key may be missing. */
  datatype Stream<T> = Stream(data: Option<seq<T>>)

  /** The streams of an activity, keyed by type; any key may be missing. */
  datatype StreamSet<N> = StreamSet(
    latlng: Option<Stream<(N, N)>>,
    altitude: Option<Stream<N>>,
    time: Option<Stream<nat>>,
    distance: Option<Stream<N>>,
    cadence: Option<Stream<N>>)

  datatype Activity = Activity(startDate: Option<string>)

  /** The five sample lists after defaulting. */
  datatype Channels<N> = Channels(latlng: seq<(N, N)>, altitude: seq<N>, time: seq<nat>, distance: seq<N>, cadence: seq<N>)

  /** `stream_data.get(key, {}).get("data", [])` */
  function DataOf<T>(s: Option<Stream<T>>): seq<T> {
    match s
    case None => []
    case Some(Stream(None)) => []
    case Some(Stream(Some(data))) => data
  }

  function ChannelsOf<N>(streams: StreamSet<N>): Channels<N> {
    Channels(DataOf(streams.latlng), DataOf(streams.altitude), DataOf(streams.time),
             DataOf(streams.distance), DataOf(streams.cadence))
  }

  function Leaf(tag: string, text: string): Element {
    Element(tag, [], Some(text), [])
  }

  /** A fresh `extensions` wrapper holding one element. */
  function Extensions(child: Element): Element {
    Element("extensions", [], None, [child])
  }

  /** `<gpx version="1.1" creator="Strava Project"><trk><name>…</name><trkseg>points</trkseg></trk></gpx>` */
  function Document(points: seq<Element>): Element {
    Element("gpx", [("version", "1.1"), ("creator", "Strava Project")], None,
      [Element("trk", [], None,
        [Leaf("name", "Downloaded Activity"), Element("trkseg", [], None, points)])])
  }

  /** The `trkseg` element of a document built by `Document`. */
  function Segment(doc: Element): Element
    requires |doc.children| == 1 && |doc.children[0].children| == 2
  {
    doc.children[0].children[1]
  }

  /** The activity's start, if `start_date` is present and parses. */
  function StartOf(activity: Activity): Result<DateTime, Error> {
    match activity.startDate
    case None => Err(MissingStartDate)
    case Some(s) =>
      match ParseStartDate(s)
      case None => Err(MalformedTimestamp)
      case Some(t) => Ok(t)
  }

  /** The `time` child of point `i`, if the time stream reaches `i`. */
  function TimeChild<N>(c: Channels<N>, start: DateTime, i: nat): Result<seq<Element>, Error>
    requires Valid(start)
  {
    if i < |c.time| then
      match AddSeconds(start, c.time[i])
      case None => Err(DateOutOfRange)
      case Some(t) => Ok([Leaf("time", FormatIso(t))])
    else Ok([])
  }

  /** The children of point `i`: `ele`, `time`, distance and cadence wrappers, each when its stream reaches `i`. */
  function PointChildren<N>(c: Channels<N>, start: DateTime, str: N -> string, i: nat): Result<seq<Element>, Error>
    requires Valid(start)
  {
    var ele := if i < |c.altitude| then [Leaf("ele", str(c.altitude[i]))] else [];
    var time :- TimeChild(c, start, i);
    var dist := if i < |c.distance| then [Extensions(Leaf("distance", str(c.distance[i])))] else [];
    var cad := if i < |c.cadence| then [Extensions(Leaf("cadence", str(c.cadence[i])))] else [];
    Ok(ele + time + dist + cad)
  }

  /** A `trkpt` element with the position of sample `i`. */
  function PointElement<N>(c: Channels<N>, str: N -> string, i: nat, children: seq<Element>): Element
    requires i < |c.latlng|
  {
    Element("trkpt", [("lat", str(c.latlng[i].0)), ("lon", str(c.latlng[i].1))], None, children)
  }

  /** The `trkpt` element for index `i` of the position stream. */
  function TrackPoint<N>(c: Channels<N>, start: DateTime, str: N -> string, i: nat): Result<Element, Error>
    requires Valid(start) && i < |c.latlng|
  {
    var children :- PointChildren(c, start, str, i);
    Ok(PointElement(c, str, i, children))
  }

  /** The outcome of every point of the position stream, in order. */
  function TrackPointResults<N>(c: Channels<N>, start: DateTime, str: N -> string): (rs: seq<Result<Element, Error>>)
    requires Valid(start)
    ensures |rs| == |c.latlng| && forall i :: 0 <= i < |c.latlng| ==> rs[i] == TrackPoint(c, start, str, i)
  {
    seq(|c.latlng|, i requires 0 <= i < |c.latlng| => TrackPoint(c, start, str, i))
  }

  /** The document for the given samples and start, or the first point's error. */
  function Track<N>(c: Channels<N>, start: DateTime, str: N -> string): Result<Element, Error>
    requires Valid(start)
  {
    var points :- AllOk(TrackPointResults(c, start, str));
    Ok(Document(points))
  }

  /** What `create_gpx_from_streams` returns, or the error it raises. */
  function CreateGpx<N>(streams: StreamSet<N>, activity: Activity, str: N -> string): Result<Element, Error> {
    var start :- StartOf(activity);
    Track(ChannelsOf(streams), start, str)
  }

  /** Builds one `trkpt`, appending its optional children one at a time. */
  method BuildTrackPoint<N>(c: Channels<N>, start: DateTime, str: N -> string, i: nat) returns (r: Result<Element, Error>)
    requires Valid(start) && i < |c.latlng|
    ensures r == TrackPoint(c, start, str, i)
  {
    var children: seq<Element> := [];
    if i < |c.altitude| {
      children := children + [Leaf("ele", str(c.altitude[i]))];
    }
    ghost var ele := children;
    assert ele == if i < |c.altitude| then [Leaf("ele", str(c.altitude[i]))] else [];
    if i < |c.time| {
      var t := AddSeconds(start, c.time[i]);
      if t.None? {
        assert PointChildren(c, start, str, i) == Err(DateOutOfRange);
        return Err(DateOutOfRange);
      }
      children := children + [Leaf("time", FormatIso(t.value))];
    }
    assert TimeChild(c, start, i).Ok? && children == ele + TimeChild(c, start, i).value;
    ghost var time := TimeChild(c, start, i).value;
    if i < |c.distance| {
      children := children + [Extensions(Leaf("distance", str(c.distance[i])))];
    }
    ghost var dist := if i < |c.distance| then [Extensions(Leaf("distance", str(c.distance[i])))] else [];
    assert children == ele + time + dist;
    if i < |c.cadence| {
      children := children + [Extensions(Leaf("cadence", str(c.cadence[i])))];
    }
    ghost var cad := if i < |c.cadence| then [Extensions(Leaf("cadence", str(c.cadence[i])))] else [];
    assert children == ele + time + dist + cad;
    assert PointChildren(c, start, str, i) == Ok(children);
    r := Ok(PointElement(c, str, i, children));
  }

  /** The loop of `create_gpx_from_streams`: one `trkpt` per position sample, appended in order. */
  method BuildTrackPoints<N>(c: Channels<N>, start: DateTime, str: N -> string) returns (r: Result<seq<Element>, Error>)
    requires Valid(start)
    ensures r == AllOk(TrackPointResults(c, start, str))
  {
    ghost var rs := TrackPointResults(c, start, str);
    var points: seq<Element> := [];
    var i := 0;
    while i < |c.latlng|
      invariant 0 <= i <= |c.latlng|
      invariant AllOk(rs[..i]) == Ok(points)
    {
      var p := BuildTrackPoint(c, start, str, i);
      assert rs[..i + 1][..i] == rs[..i];
      if p.Err? {
        AllOkPrefixErr(rs, i + 1);
        return Err(p.error);
      }
      points := points + [p.value];
      i := i + 1;
    }
    assert rs[..i] == rs;
    r := Ok(points);
  }

  /** `create_gpx_from_streams`: read the start date, then build the points under the fixed header. */
  method CreateGpxFromStreams<N>(streams: StreamSet<N>, activity: Activity, str: N -> string) returns (r: Result<Element, Error>)
    ensures r == CreateGpx(streams, activity, str)
  {
    var c := ChannelsOf(streams);
    if activity.startDate.None? {
      return Err(MissingStartDate);
    }
    var parsed := ParseStartDate(activity.startDate.value);
    if parsed.None? {
      return Err(MalformedTimestamp);
    }
    var points := BuildTrackPoints(c, parsed.value, str);
    if points.Err? {
      return Err(points.error);
    }
    r := Ok(Document(points.value));
  }

  /** Position in the fixed child order of a `trkpt`; 4 for anything else. */
  function ChildKind(e: Element): nat {
    if e.tag == "ele" then 0
    else if e.tag == "time" then 1
    else if e.tag == "extensions" && |e.children| > 0 && e.children[0].tag == "distance" then 2
    else if e.tag == "extensions" && |e.children| > 0 && e.children[0].tag == "cadence" then 3
    else 4
  }

  /** The length of the stream that decides whether a child of the given kind is present. */
  function GatingLength<N>(c: Channels<N>, kind: nat): nat
    requires kind < 4
  {
    if kind == 0 then |c.altitude| else if kind == 1 then |c.time|
    else if kind == 2 then |c.distance| else |c.cadence|
  }

  function CountTag(es: seq<Element>, tag: string): nat {
    if es == [] then 0 else CountTag(es[..|es| - 1], tag) + (if es[|es| - 1].tag == tag then 1 else 0)
  }

  /** The outcome of the whole build: which error, and when it succeeds. */
  lemma CreateGpxOutcome<N>(streams: StreamSet<N>, activity: Activity, str: N -> string)
    ensures activity.startDate.None? ==> CreateGpx(streams, activity, str) == Err(MissingStartDate)
    ensures activity.startDate.Some? && ParseStartDate(activity.startDate.value).None? ==>
              CreateGpx(streams, activity, str) == Err(MalformedTimestamp)
    ensures CreateGpx(streams, activity, str).Ok? <==>
              StartOf(activity).Ok? &&
              var c := ChannelsOf(streams);
              forall i :: 0 <= i < |c.latlng| && i < |c.time| ==> AddSeconds(StartOf(activity).value, c.time[i]).Some?
    ensures CreateGpx(streams, activity, str).Err? && StartOf(activity).Ok? ==>
              CreateGpx(streams, activity, str) == Err(DateOutOfRange)
  {
    var c := ChannelsOf(streams);
    if StartOf(activity).Ok? {
      var start := StartOf(activity).value;
      var rs := TrackPointResults(c, start, str);
      AllOkSpec(rs);
      forall i | 0 <= i < |c.latlng|
        ensures rs[i].Ok? <==> (i < |c.time| ==> AddSeconds(start, c.time[i]).Some?)
        ensures rs[i].Err? ==> rs[i].error == DateOutOfRange
      {
        assert rs[i] == TrackPoint(c, start, str, i);
      }
    }
  }

  /**
    A built document is a `gpx` root with version and creator, holding one
    `trk` with its name and one `trkseg` that has exactly one `trkpt` per
    position sample, in order, whatever the lengths of the other streams.
  */
  lemma CreateGpxDocument<N>(streams: StreamSet<N>, activity: Activity, str: N -> string)
    requires CreateGpx(streams, activity, str).Ok?
    ensures var doc := CreateGpx(streams, activity, str).value;
            doc.tag == "gpx" && doc.attrs == [("version", "1.1"), ("creator", "Strava Project")] &&
            |doc.children| == 1 && doc.children[0].tag == "trk" &&
            |doc.children[0].children| == 2 && doc.children[0].children[0] == Leaf("name", "Downloaded Activity") &&
            Segment(doc).tag == "trkseg" && Segment(doc).attrs == []
    ensures var doc := CreateGpx(streams, activity, str).value;
            var c := ChannelsOf(streams);
            |doc.children| == 1 && |doc.children[0].children| == 2 &&
            StartOf(activity).Ok? &&
            |Segment(doc).children| == |c.latlng| &&
            forall i :: 0 <= i < |c.latlng| ==>
              TrackPoint(c, StartOf(activity).value, str, i).Ok? &&
              Segment(doc).children[i] == TrackPoint(c, StartOf(activity).value, str, i).value
  {
    var c := ChannelsOf(streams);
    var rs := TrackPointResults(c, StartOf(activity).value, str);
    AllOkSpec(rs);
  }

  /**
    With no position samples the document has a track and an empty segment,
    as long as the start date is readable.
  */
  lemma EmptyTrack<N>(streams: StreamSet<N>, activity: Activity, str: N -> string)
    requires DataOf(streams.latlng) == [] && StartOf(activity).Ok?
    ensures CreateGpx(streams, activity, str) ==
      Ok(Element("gpx", [("version", "1.1"), ("creator", "Strava Project")], None,
        [Element("trk", [], None,
          [Element("name", [], Some("Downloaded Activity"), []), Element("trkseg", [], None, [])])]))
  {
  }

  /** `es` is empty or holds the one element `e`. */
  predicate AtMost(es: seq<Element>, e: Element) {
    es == [] || es == [e]
  }

  /** Which group's element sits at each index of the four groups put together. */
  lemma GroupElements(g0: seq<Element>, g1: seq<Element>, g2: seq<Element>, g3: seq<Element>,
                      e0: Element, e1: Element, e2: Element, e3: Element)
    requires AtMost(g0, e0) && AtMost(g1, e1) && AtMost(g2, e2) && AtMost(g3, e3)
    ensures var ch := g0 + g1 + g2 + g3;
            forall j :: 0 <= j < |ch| ==>
              ch[j] == if j < |g0| then e0 else if j < |g0| + |g1| then e1 else if j < |g0| + |g1| + |g2| then e2 else e3
  {
  }

  /**
    Four optional groups of one child each, put together in order: the
    kinds strictly increase, a kind occurs exactly when its group is not
    empty, and the child of a kind is that group's element.
  */
  lemma OrderedGroups(g0: seq<Element>, g1: seq<Element>, g2: seq<Element>, g3: seq<Element>,
                      e0: Element, e1: Element, e2: Element, e3: Element)
    requires AtMost(g0, e0) && AtMost(g1, e1) && AtMost(g2, e2) && AtMost(g3, e3)
    requires ChildKind(e0) == 0 && ChildKind(e1) == 1 && ChildKind(e2) == 2 && ChildKind(e3) == 3
    ensures var ch := g0 + g1 + g2 + g3;
            forall j, k :: 0 <= j < k < |ch| ==> ChildKind(ch[j]) < ChildKind(ch[k])
    ensures var ch := g0 + g1 + g2 + g3;
            forall j :: 0 <= j < |ch| ==>
              (ChildKind(ch[j]) == 0 && ch[j] == e0) || (ChildKind(ch[j]) == 1 && ch[j] == e1) ||
              (ChildKind(ch[j]) == 2 && ch[j] == e2) || (ChildKind(ch[j]) == 3 && ch[j] == e3)
    ensures var ch := g0 + g1 + g2 + g3;
            ((exists j :: 0 <= j < |ch| && ChildKind(ch[j]) == 0) <==> g0 != []) &&
            ((exists j :: 0 <= j < |ch| && ChildKind(ch[j]) == 1) <==> g1 != []) &&
            ((exists j :: 0 <= j < |ch| && ChildKind(ch[j]) == 2) <==> g2 != []) &&
            ((exists j :: 0 <= j < |ch| && ChildKind(ch[j]) == 3) <==> g3 != [])
  {
    var ch := g0 + g1 + g2 + g3;
    GroupElements(g0, g1, g2, g3, e0, e1, e2, e3);
    if g0 != [] { assert ChildKind(ch[0]) == 0; }
    if g1 != [] { assert ChildKind(ch[|g0|]) == 1; }
    if g2 != [] { assert ChildKind(ch[|g0| + |g1|]) == 2; }
    if g3 != [] { assert ChildKind(ch[|g0| + |g1| + |g2|]) == 3; }
  }

  /**
    The children of point `i` as four optional groups, one per stream, each
    empty or holding the child that stream contributes.
  */
  lemma PointGroups<N>(c: Channels<N>, start: DateTime, str: N -> string, i: nat)
    returns (g0: seq<Element>, g1: seq<Element>, g2: seq<Element>, g3: seq<Element>,
             e0: Element, e1: Element, e2: Element, e3: Element)
    requires Valid(start) && i < |c.latlng| && TrackPoint(c, start, str, i).Ok?
    ensures TrackPoint(c, start, str, i).value == PointElement(c, str, i, g0 + g1 + g2 + g3)
    ensures AtMost(g0, e0) && AtMost(g1, e1) && AtMost(g2, e2) && AtMost(g3, e3)
    ensures ChildKind(e0) == 0 && ChildKind(e1) == 1 && ChildKind(e2) == 2 && ChildKind(e3) == 3
    ensures (g0 != [] <==> i < |c.altitude|) && (g1 != [] <==> i < |c.time|) &&
            (g2 != [] <==> i < |c.distance|) && (g3 != [] <==> i < |c.cadence|)
    ensures i < |c.altitude| ==> e0 == Leaf("ele", str(c.altitude[i]))
    ensures i < |c.time| ==> AddSeconds(start, c.time[i]).Some? &&
                             e1 == Leaf("time", FormatIso(AddSeconds(start, c.time[i]).value))
    ensures i < |c.distance| ==> e2 == Extensions(Leaf("distance", str(c.distance[i])))
    ensures i < |c.cadence| ==> e3 == Extensions(Leaf("cadence", str(c.cadence[i])))
  {
    var sample := (m: nat, s: seq<N>) => if m < |s| then str(s[m]) else "";
    e0 := Leaf("ele", sample(i, c.altitude));
    e1 := Leaf("time", if i < |c.time| && AddSeconds(start, c.time[i]).Some? then FormatIso(AddSeconds(start, c.time[i]).value) else "");
    e2 := Extensions(Leaf("distance", sample(i, c.distance)));
    e3 := Extensions(Leaf("cadence", sample(i, c.cadence)));
    g0 := if i < |c.altitude| then [e0] else [];
    g1 := TimeChild(c, start, i).value;
    g2 := if i < |c.distance| then [e2] else [];
    g3 := if i < |c.cadence| then [e3] else [];
    assert AtMost(g1, e1);
  }

  /**
    Point `i` carries `lat` and `lon` from position sample `i`, and its
    children are exactly: `ele` iff the altitude stream reaches `i`, `time`
    iff the time stream does, an `extensions` holding `distance` iff the
    distance stream does, and another `extensions` holding `cadence` iff the
    cadence stream does, in that order and with nothing else.
  */
  lemma TrackPointContents<N>(c: Channels<N>, start: DateTime, str: N -> string, i: nat)
    requires Valid(start) && i < |c.latlng| && TrackPoint(c, start, str, i).Ok?
    ensures var p := TrackPoint(c, start, str, i).value;
            p.tag == "trkpt" && p.attrs == [("lat", str(c.latlng[i].0)), ("lon", str(c.latlng[i].1))] && p.text == None
    ensures var ch := TrackPoint(c, start, str, i).value.children;
            forall kind :: 0 <= kind < 4 ==>
              ((exists j :: 0 <= j < |ch| && ChildKind(ch[j]) == kind) <==> i < GatingLength(c, kind))
    ensures var ch := TrackPoint(c, start, str, i).value.children;
            forall j, k :: 0 <= j < k < |ch| ==> ChildKind(ch[j]) < ChildKind(ch[k])
    ensures var ch := TrackPoint(c, start, str, i).value.children;
            forall j :: 0 <= j < |ch| ==> ChildKind(ch[j]) < 4
  {
    var g0, g1, g2, g3, e0, e1, e2, e3 := PointGroups(c, start, str, i);
    OrderedGroups(g0, g1, g2, g3, e0, e1, e2, e3);
  }

  /**
    Each child of point `i` holds its stream's `i`-th sample; the `time`
    child holds the start moved by `time[i]` seconds, in isoformat.
  */
  lemma TrackPointValues<N>(c: Channels<N>, start: DateTime, str: N -> string, i: nat)
    requires Valid(start) && i < |c.latlng| && TrackPoint(c, start, str, i).Ok?
    ensures var ch := TrackPoint(c, start, str, i).value.children;
            forall j :: 0 <= j < |ch| && ChildKind(ch[j]) == 0 ==>
              i < |c.altitude| && ch[j] == Leaf("ele", str(c.altitude[i]))
    ensures var ch := TrackPoint(c, start, str, i).value.children;
            forall j :: 0 <= j < |ch| && ChildKind(ch[j]) == 1 ==>
              i < |c.time| && AddSeconds(start, c.time[i]).Some? &&
              ch[j] == Leaf("time", FormatIso(AddSeconds(start, c.time[i]).value))
    ensures var ch := TrackPoint(c, start, str, i).value.children;
            forall j :: 0 <= j < |ch| && ChildKind(ch[j]) == 2 ==>
              i < |c.distance| && ch[j] == Extensions(Leaf("distance", str(c.distance[i])))
    ensures var ch := TrackPoint(c, start, str, i).value.children;
            forall j :: 0 <= j < |ch| && ChildKind(ch[j]) == 3 ==>
              i < |c.cadence| && ch[j] == Extensions(Leaf("cadence", str(c.cadence[i])))
  {
    var g0, g1, g2, g3, e0, e1, e2, e3 := PointGroups(c, start, str, i);
    OrderedGroups(g0, g1, g2, g3, e0, e1, e2, e3);
  }

  /**
    When both distance and cadence reach point `i`, the point has two
    separate `extensions` children, distance first and cadence last, rather
    than one shared wrapper.
  */
  lemma SeparateExtensions<N>(c: Channels<N>, start: DateTime, str: N -> string, i: nat)
    requires Valid(start) && i < |c.latlng| && TrackPoint(c, start, str, i).Ok?
    requires i < |c.distance| && i < |c.cadence|
    ensures var ch := TrackPoint(c, start, str, i).value.children;
            |ch| >= 2 && CountTag(ch, "extensions") == 2 &&
            ch[|ch| - 2] == Extensions(Leaf("distance", str(c.distance[i]))) &&
            ch[|ch| - 1] == Extensions(Leaf("cadence", str(c.cadence[i])))
  {
    var ele := if i < |c.altitude| then [Leaf("ele", str(c.altitude[i]))] else [];
    var time := TimeChild(c, start, i).value;
    var ch := TrackPoint(c, start, str, i).value.children;
    assert ch == ele + time + [Extensions(Leaf("distance", str(c.distance[i])))] + [Extensions(Leaf("cadence", str(c.cadence[i])))];
    var front := ch[..|ch| - 2];
    assert front == ele + time;
    assert ch[..|ch| - 1][..|ch| - 2] == front;
    NoTag(front, "extensions");
  }

  lemma {:induction false} NoTag(es: seq<Element>, tag: string)
    requires forall j :: 0 <= j < |es| ==> es[j].tag != tag
    ensures CountTag(es, tag) == 0
  {
    if es != [] {
      NoTag(es[..|es| - 1], tag);
    }
  }

  /** The streams of the repository's two-point test activity, with samples given as their text. */
  function TestStreams(): StreamSet<string> {
    StreamSet(
      Some(Stream(Some([("37.7749", "-122.4194"), ("37.775", "-122.4195")]))),
      Some(Stream(Some(["5.0", "6.0"]))),
      Some(Stream(Some([0, 10]))),
      Some(Stream(Some(["0.0", "10.0"]))),
      Some(Stream(Some(["80", "85"]))))
  }

  function Identity(s: string): string {
    s
  }

  /**
    A point that every stream reaches: `ele`, `time`, then the distance and
    cadence wrappers, the time being the start moved by the elapsed seconds.
  */
  lemma FullTrackPoint<N>(c: Channels<N>, start: DateTime, str: N -> string, i: nat, t: DateTime)
    requires Valid(start) && i < |c.latlng| && i < |c.altitude| && i < |c.time| && i < |c.distance| && i < |c.cadence|
    requires AddSeconds(start, c.time[i]) == Some(t)
    ensures TrackPoint(c, start, str, i) ==
      Ok(Element("trkpt", [("lat", str(c.latlng[i].0)), ("lon", str(c.latlng[i].1))], None,
        [Leaf("ele", str(c.altitude[i])), Leaf("time", FormatIso(t)),
         Extensions(Leaf("distance", str(c.distance[i]))), Extensions(Leaf("cadence", str(c.cadence[i])))]))
  {
    var ele, time := [Leaf("ele", str(c.altitude[i]))], [Leaf("time", FormatIso(t))];
    var dist, cad := [Extensions(Leaf("distance", str(c.distance[i])))], [Extensions(Leaf("cadence", str(c.cadence[i])))];
    assert PointChildren(c, start, str, i) == Ok(ele + time + dist + cad);
    assert ele + time + dist + cad == [ele[0], time[0], dist[0], cad[0]];
  }

  /** The first point of the test activity, given the date-time it is stamped with. */
  lemma TestFirstPoint(c: Channels<string>, start: DateTime, t: DateTime)
    requires c == ChannelsOf(TestStreams()) && Valid(start) && AddSeconds(start, c.time[0]) == Some(t)
    ensures TrackPoint(c, start, Identity, 0) ==
        Ok(Element("trkpt", [("lat", "37.7749"), ("lon", "-122.4194")], None,
          [Leaf("ele", "5.0"), Leaf("time", FormatIso(t)),
           Extensions(Leaf("distance", "0.0")), Extensions(Leaf("cadence", "80"))]))
  {
    FullTrackPoint(c, start, Identity, 0, t);
  }

  /** The second point of the test activity, given the date-time it is stamped with. */
  lemma TestSecondPoint(c: Channels<string>, start: DateTime, t: DateTime)
    requires c == ChannelsOf(TestStreams()) && Valid(start) && AddSeconds(start, c.time[1]) == Some(t)
    ensures TrackPoint(c, start, Identity, 1) ==
        Ok(Element("trkpt", [("lat", "37.775"), ("lon", "-122.4195")], None,
          [Leaf("ele", "6.0"), Leaf("time", FormatIso(t)),
           Extensions(Leaf("distance", "10.0")), Extensions(Leaf("cadence", "85"))]))
  {
    FullTrackPoint(c, start, Identity, 1, t);
  }

  // The examples below name their date-times as parameters fixed by `requires` rather than as
  // literals in the `ensures`: with literals the solver evaluates the calendar arithmetic on
  // constants, which costs far more than the proof itself.

  /** The test activity starts at 2023-11-27T00:00:00; its first point, 0 seconds in, keeps that time. */
  lemma TestFirstTime(start: DateTime)
    requires start == DateTime(Date(2023, 11, 27), 0, 0, 0)
    ensures AddSeconds(start, 0) == Some(start)
  {
    AddZeroSeconds(start);
  }

  /** The second point, 10 seconds in, is stamped 2023-11-27T00:00:10. */
  lemma TestSecondTime(start: DateTime, later: DateTime)
    requires start == DateTime(Date(2023, 11, 27), 0, 0, 0) && later == DateTime(Date(2023, 11, 27), 0, 0, 10)
    ensures AddSeconds(start, 10) == Some(later)
  {
    AddSecondsUnique(start, 10, later);
  }

  /** The texts the two points carry in their `time` elements. */
  lemma TestFirstTimeText(start: DateTime)
    requires start == DateTime(Date(2023, 11, 27), 0, 0, 0)
    ensures FormatIso(start) == "2023-11-27T00:00:00+00:00"
  {
  }

  lemma TestSecondTimeText(later: DateTime)
    requires later == DateTime(Date(2023, 11, 27), 0, 0, 10)
    ensures FormatIso(later) == "2023-11-27T00:00:10+00:00"
  {
  }
}
