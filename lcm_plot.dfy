/** The accumulation behind the two plotting tools: per requested field, the
    (timestamp, value) points of the events that carry it, and axis bounds
    that start empty at (+inf, -inf) and are widened by every point; per
    requested pair of fields, the difference of their most recent values
    each time one of them is reported.  The order in which an event's items
    are enumerated is a parameter, as the dictionary's own order is. */
module LcmPlot {
  import opened Wrappers
  import opened CsvEvents

  /** A float bound that may be infinite. */
  datatype Ext = NegInf | Fin(v: real) | PosInf

  predicate Less(a: Ext, b: Ext)
  {
    match a
    case NegInf => !b.NegInf?
    case Fin(x) => b.PosInf? || (b.Fin? && x < b.v)
    case PosInf => false
  }

  /** Python's `min(a, b)`: `a` unless `b` is smaller. */
  function Min(a: Ext, b: Ext): Ext
  {
    if Less(b, a) then b else a
  }

  /** Python's `max(a, b)`: `a` unless `b` is larger. */
  function Max(a: Ext, b: Ext): Ext
  {
    if Less(a, b) then b else a
  }

  /** `lo` and `hi` are the least and greatest of `s`, or (+inf, -inf) when
      `s` is empty. */
  predicate Tight(lo: Ext, hi: Ext, s: set<real>)
  {
    if s == {} then lo == PosInf && hi == NegInf
    else lo.Fin? && hi.Fin? && lo.v in s && hi.v in s && forall v :: v in s ==> lo.v <= v <= hi.v
  }

  /** Widening tight bounds by a value gives the tight bounds of the set
      with that value added. */
  lemma AdjustKeepsTight(lo: Ext, hi: Ext, s: set<real>, v: real)
    requires Tight(lo, hi, s)
    ensures Tight(Min(Fin(v), lo), Max(Fin(v), hi), s + {v})
  {
    if s == {} {
      assert s + {v} == {v};
    }
  }

  /** One plotted point: the integer timestamp and the float value. */
  datatype Point = Point(x: int, y: real)

  /** Widens both bounds in place to take in `point`. */
  method AdjustBounds(xBounds: array<Ext>, yBounds: array<Ext>, point: Point)
    requires xBounds.Length == 2 && yBounds.Length == 2 && xBounds != yBounds
    modifies xBounds, yBounds
    ensures xBounds[..] == [Min(Fin(point.x as real), old(xBounds[0])), Max(Fin(point.x as real), old(xBounds[1]))]
    ensures yBounds[..] == [Min(Fin(point.y), old(yBounds[0])), Max(Fin(point.y), old(yBounds[1]))]
  {
    xBounds[0] := Min(Fin(point.x as real), xBounds[0]);
    xBounds[1] := Max(Fin(point.x as real), xBounds[1]);
    yBounds[0] := Min(Fin(point.y), yBounds[0]);
    yBounds[1] := Max(Fin(point.y), yBounds[1]);
  }

  /** `keys` enumerates the items of `e`: each key once, and no other. */
  predicate Enumerates(keys: seq<string>, e: Event)
  {
    && (forall i :: 0 <= i < |keys| ==> keys[i] in e)
    && (forall k :: k in e ==> k in keys)
    && (forall i, j :: 0 <= i < j < |keys| ==> keys[i] != keys[j])
  }

  /** What the plotting loops need of every event: a timestamp, and an
      enumeration of its items. */
  predicate Listed(events: seq<Event>, order: Event -> seq<string>)
  {
    forall k :: 0 <= k < |events| ==> Timestamp in events[k] && Enumerates(order(events[k]), events[k])
  }

  /** The point field `f` of `e` contributes. */
  function PointOf(e: Event, f: string, toInt: string -> int, toFloat: string -> real): Point
    requires Timestamp in e && f in e
  {
    Point(toInt(e[Timestamp]), toFloat(e[f]))
  }

  /** Every event has a timestamp. */
  predicate Stamped(events: seq<Event>)
  {
    forall k :: 0 <= k < |events| ==> Timestamp in events[k]
  }

  /** Every event the reader yields carries "timestamp", which the plotting
      loops read first. */
  lemma {:induction false} ExtractedStamped(messageFields: map<string, seq<string>>, rows: seq<Row>)
    ensures Stamped(ExtractFrom(messageFields, rows).events)
    decreases |rows|
  {
    if rows != [] {
      match RowEffectOf(messageFields, rows[0])
      case Header(messageType, names) =>
        ExtractedStamped(messageFields[messageType := names], rows[1..]);
      case Yields(e) =>
        ExtractedStamped(messageFields, rows[1..]);
        YieldedEventKeys(messageFields, rows[0], Timestamp);
        var rest := ExtractFrom(messageFields, rows[1..]).events;
        forall k | 0 <= k < |[e] + rest|
          ensures Timestamp in ([e] + rest)[k]
        {
          if k > 0 {
            assert ([e] + rest)[k] == rest[k - 1];
          }
        }
      case Raises(error) =>
      case Ignored =>
        ExtractedStamped(messageFields, rows[1..]);
      case Dropped =>
        ExtractedStamped(messageFields, rows[1..]);
    }
  }

  /** The points of field `f` among the first `n` events: one per event
      that carries it, in event order. */
  ghost function SeriesOf(events: seq<Event>, n: nat, f: string, toInt: string -> int, toFloat: string -> real): seq<Point>
    requires n <= |events| && Stamped(events)
  {
    if n == 0 then []
    else SeriesOf(events, n - 1, f, toInt, toFloat) + (if f in events[n - 1] then [PointOf(events[n - 1], f, toInt, toFloat)] else [])
  }

  /** The timestamps of the events that carry a plotted field, seen among
      `keys`. */
  ghost function KeyXs(e: Event, keys: seq<string>, fields: set<string>, toInt: string -> int): set<real>
    requires Timestamp in e
  {
    set k | k in keys && k in fields && k in e :: toInt(e[Timestamp]) as real
  }

  /** The values of the plotted fields among `keys`. */
  ghost function KeyYs(e: Event, keys: seq<string>, fields: set<string>, toFloat: string -> real): set<real>
  {
    set k | k in keys && k in fields && k in e :: toFloat(e[k])
  }

  /** The x values of the points event `e` contributes: its timestamp, once
      for each plotted field it carries. */
  ghost function EventXs(e: Event, fields: set<string>, toInt: string -> int): set<real>
    requires Timestamp in e
  {
    set k | k in e && k in fields :: toInt(e[Timestamp]) as real
  }

  /** The y values of the points event `e` contributes. */
  ghost function EventYs(e: Event, fields: set<string>, toFloat: string -> real): set<real>
  {
    set k | k in e && k in fields :: toFloat(e[k])
  }

  /** The x values of every point plotted from the first `n` events. */
  ghost function XsOf(events: seq<Event>, n: nat, fields: set<string>, toInt: string -> int): set<real>
    requires n <= |events| && Stamped(events)
  {
    if n == 0 then {} else XsOf(events, n - 1, fields, toInt) + EventXs(events[n - 1], fields, toInt)
  }

  /** The y values of every point plotted from the first `n` events. */
  ghost function YsOf(events: seq<Event>, n: nat, fields: set<string>, toFloat: string -> real): set<real>
    requires n <= |events|
  {
    if n == 0 then {} else YsOf(events, n - 1, fields, toFloat) + EventYs(events[n - 1], fields, toFloat)
  }

  /** Taking the enumeration of one more key into the seen sets. */
  lemma KeysSnoc(e: Event, keys: seq<string>, k: string, fields: set<string>, toInt: string -> int, toFloat: string -> real)
    requires Timestamp in e
    ensures KeyXs(e, keys + [k], fields, toInt)
         == KeyXs(e, keys, fields, toInt) + (if k in fields && k in e then {toInt(e[Timestamp]) as real} else {})
    ensures KeyYs(e, keys + [k], fields, toFloat)
         == KeyYs(e, keys, fields, toFloat) + (if k in fields && k in e then {toFloat(e[k])} else {})
  {
    if k in fields && k in e {
      assert k in keys + [k];
    }
  }

  /** Once every item of an event is seen, the seen values are that event's
      values. */
  lemma EventDone(e: Event, keys: seq<string>, fields: set<string>, toInt: string -> int, toFloat: string -> real)
    requires Timestamp in e && Enumerates(keys, e)
    ensures KeyXs(e, keys, fields, toInt) == EventXs(e, fields, toInt)
    ensures KeyYs(e, keys, fields, toFloat) == EventYs(e, fields, toFloat)
  {
  }

  /** The series once the items `keys` of `event` have been taken in: each
      that is a requested field gets its point appended. */
  function AddPoints(series: map<string, seq<Point>>, event: Event, keys: seq<string>,
                     toInt: string -> int, toFloat: string -> real): map<string, seq<Point>>
    requires Timestamp in event && forall i :: 0 <= i < |keys| ==> keys[i] in event
  {
    if keys == [] then series
    else
      var k := keys[|keys| - 1];
      var s := AddPoints(series, event, keys[..|keys| - 1], toInt, toFloat);
      if k in s then s[k := s[k] + [PointOf(event, k, toInt, toFloat)]] else s
  }

  /** Taking in distinct items appends one point to each requested field
      among them and leaves the others alone. */
  lemma {:induction false} AddPointsOnce(series: map<string, seq<Point>>, event: Event, keys: seq<string>,
                                          toInt: string -> int, toFloat: string -> real)
    requires Timestamp in event && forall i :: 0 <= i < |keys| ==> keys[i] in event
    requires forall i, j :: 0 <= i < j < |keys| ==> keys[i] != keys[j]
    ensures AddPoints(series, event, keys, toInt, toFloat).Keys == series.Keys
    ensures forall f :: f in series ==>
              AddPoints(series, event, keys, toInt, toFloat)[f]
              == series[f] + (if f in keys then [PointOf(event, f, toInt, toFloat)] else [])
  {
    if keys != [] {
      var n := |keys| - 1;
      AddPointsOnce(series, event, keys[..n], toInt, toFloat);
      assert keys == keys[..n] + [keys[n]];
      assert keys[n] !in keys[..n];
    }
  }

  /** The series of every requested field after the first `n` events. */
  ghost function SeriesAfter(events: seq<Event>, n: nat, fields: set<string>,
                             toInt: string -> int, toFloat: string -> real): map<string, seq<Point>>
    requires n <= |events| && Stamped(events)
  {
    map f | f in fields :: SeriesOf(events, n, f, toInt, toFloat)
  }

  /** Taking in every item of the next event extends each series by that
      event's point, and the values seen grow by that event's values. */
  lemma SeriesStep(events: seq<Event>, i: nat, keys: seq<string>, fields: set<string>,
                   toInt: string -> int, toFloat: string -> real)
    requires i < |events| && Stamped(events) && Enumerates(keys, events[i])
    ensures SeriesAfter(events, i, fields, toInt, toFloat).Keys == fields
    ensures AddPoints(SeriesAfter(events, i, fields, toInt, toFloat), events[i], keys, toInt, toFloat)
         == SeriesAfter(events, i + 1, fields, toInt, toFloat)
    ensures XsOf(events, i + 1, fields, toInt) == XsOf(events, i, fields, toInt) + KeyXs(events[i], keys, fields, toInt)
    ensures YsOf(events, i + 1, fields, toFloat) == YsOf(events, i, fields, toFloat) + KeyYs(events[i], keys, fields, toFloat)
  {
    AddPointsOnce(SeriesAfter(events, i, fields, toInt, toFloat), events[i], keys, toInt, toFloat);
    EventDone(events[i], keys, fields, toInt, toFloat);
  }

  /** One pass of the inner loop of `plot_events`, after the items `done`:
      an item that is a requested field adds its point to that field's
      series and widens the bounds by it; any other item changes nothing. */
  method PlotItem(event: Event, done: seq<string>, name: string, plotted: map<string, seq<Point>>,
                  xBounds: array<Ext>, yBounds: array<Ext>, toInt: string -> int, toFloat: string -> real,
                  ghost xs: set<real>, ghost ys: set<real>)
    returns (next: map<string, seq<Point>>)
    requires Timestamp in event && name in event
    requires xBounds.Length == 2 && yBounds.Length == 2 && xBounds != yBounds
    requires Tight(xBounds[0], xBounds[1], xs + KeyXs(event, done, plotted.Keys, toInt))
    requires Tight(yBounds[0], yBounds[1], ys + KeyYs(event, done, plotted.Keys, toFloat))
    modifies xBounds, yBounds
    ensures next == AddPoints(plotted, event, [name], toInt, toFloat)
    ensures Tight(xBounds[0], xBounds[1], xs + KeyXs(event, done + [name], plotted.Keys, toInt))
    ensures Tight(yBounds[0], yBounds[1], ys + KeyYs(event, done + [name], plotted.Keys, toFloat))
  {
    assert [name][..0] == [];
    KeysSnoc(event, done, name, plotted.Keys, toInt, toFloat);
    next := plotted;
    if name in plotted {
      var point := Point(toInt(event[Timestamp]), toFloat(event[name]));
      next := plotted[name := plotted[name] + [point]];
      ghost var seenX, seenY := xs + KeyXs(event, done, plotted.Keys, toInt), ys + KeyYs(event, done, plotted.Keys, toFloat);
      assert xs + KeyXs(event, done + [name], plotted.Keys, toInt) == seenX + {point.x as real};
      assert ys + KeyYs(event, done + [name], plotted.Keys, toFloat) == seenY + {point.y};
      AdjustKeepsTight(xBounds[0], xBounds[1], seenX, point.x as real);
      AdjustKeepsTight(yBounds[0], yBounds[1], seenY, point.y);
      AdjustBounds(xBounds, yBounds, point);
    }
  }

  /** One pass of the outer loop of `plot_events`: every item of `event`,
      in the order `keys` lists them, goes through `PlotItem`. */
  method PlotEvent(event: Event, keys: seq<string>, series: map<string, seq<Point>>,
                   xBounds: array<Ext>, yBounds: array<Ext>, toInt: string -> int, toFloat: string -> real,
                   ghost xs: set<real>, ghost ys: set<real>)
    returns (plotted: map<string, seq<Point>>)
    requires Timestamp in event && forall i :: 0 <= i < |keys| ==> keys[i] in event
    requires xBounds.Length == 2 && yBounds.Length == 2 && xBounds != yBounds
    requires Tight(xBounds[0], xBounds[1], xs) && Tight(yBounds[0], yBounds[1], ys)
    modifies xBounds, yBounds
    ensures plotted == AddPoints(series, event, keys, toInt, toFloat)
    ensures Tight(xBounds[0], xBounds[1], xs + KeyXs(event, keys, series.Keys, toInt))
    ensures Tight(yBounds[0], yBounds[1], ys + KeyYs(event, keys, series.Keys, toFloat))
  {
    plotted := series;
    assert xs + KeyXs(event, keys[..0], series.Keys, toInt) == xs;
    assert ys + KeyYs(event, keys[..0], series.Keys, toFloat) == ys;
    for j := 0 to |keys|
      invariant plotted == AddPoints(series, event, keys[..j], toInt, toFloat)
      invariant plotted.Keys == series.Keys
      invariant Tight(xBounds[0], xBounds[1], xs + KeyXs(event, keys[..j], series.Keys, toInt))
      invariant Tight(yBounds[0], yBounds[1], ys + KeyYs(event, keys[..j], series.Keys, toFloat))
    {
      assert keys[..j + 1] == keys[..j] + [keys[j]];
      plotted := PlotItem(event, keys[..j], keys[j], plotted, xBounds, yBounds, toInt, toFloat, xs, ys);
    }
    assert keys[..|keys|] == keys;
  }

  /** The loop of `plot_events` over the events, in order, each through
      `PlotEvent` with its items in the order `order` lists them. */
  method PlotAllEvents(events: seq<Event>, order: Event -> seq<string>, ghost fields: set<string>,
                       series: map<string, seq<Point>>, xBounds: array<Ext>, yBounds: array<Ext>,
                       toInt: string -> int, toFloat: string -> real)
    returns (plotted: map<string, seq<Point>>)
    requires Listed(events, order) && Stamped(events)
    requires series == SeriesAfter(events, 0, fields, toInt, toFloat)
    requires xBounds.Length == 2 && yBounds.Length == 2 && xBounds != yBounds
    requires xBounds[0] == PosInf && xBounds[1] == NegInf && yBounds[0] == PosInf && yBounds[1] == NegInf
    modifies xBounds, yBounds
    ensures plotted == SeriesAfter(events, |events|, fields, toInt, toFloat)
    ensures Tight(xBounds[0], xBounds[1], XsOf(events, |events|, fields, toInt))
    ensures Tight(yBounds[0], yBounds[1], YsOf(events, |events|, fields, toFloat))
  {
    plotted := series;
    for i := 0 to |events|
      invariant plotted == SeriesAfter(events, i, fields, toInt, toFloat)
      invariant Tight(xBounds[0], xBounds[1], XsOf(events, i, fields, toInt))
      invariant Tight(yBounds[0], yBounds[1], YsOf(events, i, fields, toFloat))
    {
      var keys := order(events[i]);
      SeriesStep(events, i, keys, fields, toInt, toFloat);
      plotted := PlotEvent(events[i], keys, plotted, xBounds, yBounds, toInt, toFloat,
                           XsOf(events, i, fields, toInt), YsOf(events, i, fields, toFloat));
    }
  }

  /** The accumulation of `plot_events`: the points of each requested field,
      and the axis bounds (x low, x high, y low, y high) they end with. */
  method PlotEvents(events: seq<Event>, order: Event -> seq<string>, fieldsToPlot: seq<string>,
                    toInt: string -> int, toFloat: string -> real)
    returns (series: map<string, seq<Point>>, axis: seq<Ext>)
    requires Listed(events, order)
    ensures series.Keys == set f | f in fieldsToPlot
    ensures forall f :: f in series ==> series[f] == SeriesOf(events, |events|, f, toInt, toFloat)
    ensures |axis| == 4
    ensures Tight(axis[0], axis[1], XsOf(events, |events|, series.Keys, toInt))
    ensures Tight(axis[2], axis[3], YsOf(events, |events|, series.Keys, toFloat))
  {
    series := map f | f in fieldsToPlot :: [];
    ghost var fields := series.Keys;
    assert Stamped(events);
    assert series == SeriesAfter(events, 0, fields, toInt, toFloat);
    var xBounds := new Ext[2](_ => NegInf);
    xBounds[0], xBounds[1] := PosInf, NegInf;
    var yBounds := new Ext[2](_ => NegInf);
    yBounds[0], yBounds[1] := PosInf, NegInf;
    series := PlotAllEvents(events, order, fields, series, xBounds, yBounds, toInt, toFloat);
    assert series.Keys == fields;
    axis := [xBounds[0], xBounds[1], yBounds[0], yBounds[1]];
  }

  /** A pair of fields whose difference is plotted, first minus second. */
  datatype Pair = Pair(first: string, second: string)

  predicate Touches(p: Pair, f: string)
  {
    f == p.first || f == p.second
  }

  /** Every field named in a requested pair. */
  function Participating(pairs: seq<Pair>): set<string>
  {
    (set p | p in pairs :: p.first) + (set p | p in pairs :: p.second)
  }

  /** A participating field reported by an event. */
  datatype Update = Update(timestamp: string, field: string, value: real)

  /** One plotted difference, at the event's timestamp text. */
  datatype Difference = Difference(timestamp: string, value: real)

  /** The participating fields of `e` in enumeration order. */
  ghost function EventUpdates(e: Event, keys: seq<string>, fields: set<string>, toFloat: string -> real): seq<Update>
    requires Timestamp in e && forall i :: 0 <= i < |keys| ==> keys[i] in e
  {
    if keys == [] then []
    else
      var k := keys[|keys| - 1];
      EventUpdates(e, keys[..|keys| - 1], fields, toFloat) + (if k in fields then [Update(e[Timestamp], k, toFloat(e[k]))] else [])
  }

  /** The participating fields the first `n` events report, in order. */
  ghost function Updates(events: seq<Event>, n: nat, order: Event -> seq<string>, fields: set<string>, toFloat: string -> real): seq<Update>
    requires n <= |events| && Listed(events, order)
  {
    if n == 0 then []
    else Updates(events, n - 1, order, fields, toFloat) + EventUpdates(events[n - 1], order(events[n - 1]), fields, toFloat)
  }

  /** The most recent value of each field reported so far. */
  function Recent(updates: seq<Update>): map<string, real>
  {
    if updates == [] then map[]
    else
      var u := updates[|updates| - 1];
      Recent(updates[..|updates| - 1])[u.field := u.value]
  }

  /** The differences plotted for `p`: each time one of its fields is
      reported while both have a value, the difference of the most recent
      values, at that report's timestamp. */
  function DiffSeries(p: Pair, updates: seq<Update>): seq<Difference>
  {
    if updates == [] then []
    else
      var u := updates[|updates| - 1];
      var prev := DiffSeries(p, updates[..|updates| - 1]);
      var r := Recent(updates);
      if Touches(p, u.field) && p.first in r && p.second in r
      then prev + [Difference(u.timestamp, r[p.first] - r[p.second])]
      else prev
  }

  /** A field has a recent value exactly when it has been reported. */
  lemma {:induction false} RecentKeys(updates: seq<Update>, f: string)
    ensures f in Recent(updates) <==> exists i :: 0 <= i < |updates| && updates[i].field == f
  {
    if updates != [] {
      var n := |updates| - 1;
      RecentKeys(updates[..n], f);
      if exists i :: 0 <= i < n && updates[..n][i].field == f {
        var i :| 0 <= i < n && updates[..n][i].field == f;
        assert updates[i].field == f;
      }
      if exists i :: 0 <= i < |updates| && updates[i].field == f {
        var i :| 0 <= i < |updates| && updates[i].field == f;
        if i < n {
          assert updates[..n][i].field == f;
        }
      }
    }
  }

  /** A pair has no differences exactly when one of its fields has never
      been reported. */
  lemma {:induction false} DiffSeriesEmptyIff(p: Pair, updates: seq<Update>)
    ensures DiffSeries(p, updates) == [] <==> !(p.first in Recent(updates) && p.second in Recent(updates))
  {
    if updates != [] {
      var n := |updates| - 1;
      DiffSeriesEmptyIff(p, updates[..n]);
    }
  }

  /** The last difference of a pair is that of its fields' latest values. */
  lemma {:induction false} DiffSeriesLast(p: Pair, updates: seq<Update>)
    requires DiffSeries(p, updates) != []
    ensures p.first in Recent(updates) && p.second in Recent(updates)
    ensures DiffSeries(p, updates)[|DiffSeries(p, updates)| - 1].value == Recent(updates)[p.first] - Recent(updates)[p.second]
  {
    DiffSeriesEmptyIff(p, updates);
    var n := |updates| - 1;
    var u := updates[n];
    if !Touches(p, u.field) {
      DiffSeriesLast(p, updates[..n]);
    }
  }

  /** How many reports touch a field of `p`. */
  function TouchCount(p: Pair, updates: seq<Update>): nat
  {
    if updates == [] then 0
    else TouchCount(p, updates[..|updates| - 1]) + (if Touches(p, updates[|updates| - 1].field) then 1 else 0)
  }

  /** At most one difference per report of one of the pair's fields. */
  lemma {:induction false} DiffSeriesBound(p: Pair, updates: seq<Update>)
    ensures |DiffSeries(p, updates)| <= TouchCount(p, updates)
  {
    if updates != [] {
      DiffSeriesBound(p, updates[..|updates| - 1]);
    }
  }

  /** Every report is of a participating field some event carries. */
  lemma {:induction false} UpdatesFromEvents(events: seq<Event>, n: nat, order: Event -> seq<string>, fields: set<string>, toFloat: string -> real)
    requires n <= |events| && Listed(events, order)
    ensures forall i :: 0 <= i < |Updates(events, n, order, fields, toFloat)| ==>
              var g := Updates(events, n, order, fields, toFloat)[i].field;
              g in fields && exists k :: 0 <= k < n && g in events[k]
  {
    if n != 0 {
      var last := events[n - 1];
      var prev := Updates(events, n - 1, order, fields, toFloat);
      var here := EventUpdates(last, order(last), fields, toFloat);
      UpdatesFromEvents(events, n - 1, order, fields, toFloat);
      EventReports(last, order(last), fields, toFloat, "");
      var all := Updates(events, n, order, fields, toFloat);
      assert all == prev + here;
      forall i | 0 <= i < |all|
        ensures all[i].field in fields && exists k :: 0 <= k < n && all[i].field in events[k]
      {
        if i < |prev| {
          assert all[i] == prev[i];
        } else {
          assert all[i] == here[i - |prev|];
          assert here[i - |prev|].field in events[n - 1];
        }
      }
    }
  }

  /** A participating field that some event carries is reported. */
  lemma {:induction false} EventsReported(events: seq<Event>, n: nat, order: Event -> seq<string>, fields: set<string>, toFloat: string -> real, f: string)
    requires n <= |events| && Listed(events, order)
    requires f in fields && exists k :: 0 <= k < n && f in events[k]
    ensures exists i :: 0 <= i < |Updates(events, n, order, fields, toFloat)| && Updates(events, n, order, fields, toFloat)[i].field == f
  {
    var last := events[n - 1];
    var prev := Updates(events, n - 1, order, fields, toFloat);
    var here := EventUpdates(last, order(last), fields, toFloat);
    var all := Updates(events, n, order, fields, toFloat);
    assert all == prev + here;
    if f in last {
      EventReports(last, order(last), fields, toFloat, f);
      var j :| 0 <= j < |here| && here[j].field == f;
      assert all[|prev| + j].field == f;
    } else {
      EventsReported(events, n - 1, order, fields, toFloat, f);
      var j :| 0 <= j < |prev| && prev[j].field == f;
      assert all[j].field == f;
    }
  }

  /** Within one event, the participating fields it carries are reported,
      and nothing else. */
  lemma {:induction false} EventReports(e: Event, keys: seq<string>, fields: set<string>, toFloat: string -> real, f: string)
    requires Timestamp in e && forall i :: 0 <= i < |keys| ==> keys[i] in e
    ensures forall i :: 0 <= i < |EventUpdates(e, keys, fields, toFloat)| ==>
              EventUpdates(e, keys, fields, toFloat)[i].field in fields && EventUpdates(e, keys, fields, toFloat)[i].field in keys
    ensures f in fields && f in keys ==>
              exists i :: 0 <= i < |EventUpdates(e, keys, fields, toFloat)| && EventUpdates(e, keys, fields, toFloat)[i].field == f
  {
    if keys != [] {
      var n := |keys| - 1;
      var prev := EventUpdates(e, keys[..n], fields, toFloat);
      var all := EventUpdates(e, keys, fields, toFloat);
      EventReports(e, keys[..n], fields, toFloat, f);
      assert keys == keys[..n] + [keys[n]];
      if f in fields && f in keys {
        if f in keys[..n] {
          var j :| 0 <= j < |prev| && prev[j].field == f;
          assert all[j].field == f;
        } else {
          assert all[|prev|].field == f;
        }
      }
    }
  }

  /** Over a whole stream: a pair is plotted with no differences exactly
      when one of its fields is in no event. */
  lemma DifferencesEmptyIff(events: seq<Event>, order: Event -> seq<string>, pairs: seq<Pair>, toFloat: string -> real, p: Pair)
    requires Listed(events, order) && p in pairs
    ensures var updates := Updates(events, |events|, order, Participating(pairs), toFloat);
            DiffSeries(p, updates) == []
            <==> !((exists k :: 0 <= k < |events| && p.first in events[k]) && (exists k :: 0 <= k < |events| && p.second in events[k]))
  {
    var updates := Updates(events, |events|, order, Participating(pairs), toFloat);
    DiffSeriesEmptyIff(p, updates);
    RecentKeys(updates, p.first);
    RecentKeys(updates, p.second);
    UpdatesFromEvents(events, |events|, order, Participating(pairs), toFloat);
    if exists k :: 0 <= k < |events| && p.first in events[k] {
      EventsReported(events, |events|, order, Participating(pairs), toFloat, p.first);
    }
    if exists k :: 0 <= k < |events| && p.second in events[k] {
      EventsReported(events, |events|, order, Participating(pairs), toFloat, p.second);
    }
  }

  /** The differences of every pair in `pairs`. */
  function AllDiffs(pairs: set<Pair>, updates: seq<Update>): map<Pair, seq<Difference>>
  {
    map p | p in pairs :: DiffSeries(p, updates)
  }

  /** `series` once `name` is reported with the most recent values
      `recent`: each pair it belongs to whose fields both have a value gets
      their difference. */
  function Record(series: map<Pair, seq<Difference>>, name: string, timestamp: string, recent: map<string, real>): map<Pair, seq<Difference>>
  {
    map p | p in series :: PairRecord(series[p], p, name, timestamp, recent)
  }

  /** The differences `diffs` of pair `p` once `name` is reported. */
  function PairRecord(diffs: seq<Difference>, p: Pair, name: string, timestamp: string, recent: map<string, real>): seq<Difference>
  {
    if Touches(p, name) && p.first in recent && p.second in recent
    then diffs + [Difference(timestamp, recent[p.first] - recent[p.second])]
    else diffs
  }

  /** One more report extends the differences as `Record` says. */
  lemma AllDiffsSnoc(pairs: set<Pair>, updates: seq<Update>, u: Update)
    ensures AllDiffs(pairs, updates + [u]) == Record(AllDiffs(pairs, updates), u.field, u.timestamp, Recent(updates + [u]))
  {
    var more := updates + [u];
    assert more[..|updates|] == updates;
    forall p | p in pairs
      ensures DiffSeries(p, more) == PairRecord(DiffSeries(p, updates), p, u.field, u.timestamp, Recent(more))
    {
    }
  }

  /** The innermost loop of `plot_differences`: every requested pair, in
      the dictionary's order, takes in the report of `name`. */
  method RecordDifferences(series: map<Pair, seq<Difference>>, name: string, timestamp: string, mostRecent: map<string, real>)
    returns (recorded: map<Pair, seq<Difference>>)
    ensures recorded == Record(series, name, timestamp, mostRecent)
  {
    recorded := series;
    var pending := series.Keys;
    while pending != {}
      invariant pending <= series.Keys && recorded.Keys == series.Keys
      invariant forall p :: p in pending ==> recorded[p] == series[p]
      invariant forall p :: p in recorded && p !in pending ==> recorded[p] == PairRecord(series[p], p, name, timestamp, mostRecent)
      decreases |pending|
    {
      var pair :| pair in pending;
      if Touches(pair, name) && pair.first in mostRecent && pair.second in mostRecent {
        recorded := recorded[pair := recorded[pair] + [Difference(timestamp, mostRecent[pair.first] - mostRecent[pair.second])]];
      }
      pending := pending - {pair};
    }
    assert recorded.Keys == Record(series, name, timestamp, mostRecent).Keys;
  }

  /** One pass of the outer loop of `plot_differences`: each participating
      item of `event`, in enumeration order, becomes the most recent value
      of its field and is recorded into the differences. */
  method PlotEventDifferences(event: Event, keys: seq<string>, participating: set<string>, toFloat: string -> real,
                              series: map<Pair, seq<Difference>>, mostRecent: map<string, real>,
                              ghost pairs: set<Pair>, ghost updates: seq<Update>)
    returns (series': map<Pair, seq<Difference>>, mostRecent': map<string, real>)
    requires Timestamp in event && forall i :: 0 <= i < |keys| ==> keys[i] in event
    requires series == AllDiffs(pairs, updates) && mostRecent == Recent(updates)
    ensures series' == AllDiffs(pairs, updates + EventUpdates(event, keys, participating, toFloat))
    ensures mostRecent' == Recent(updates + EventUpdates(event, keys, participating, toFloat))
  {
    series', mostRecent' := series, mostRecent;
    var timestamp := event[Timestamp];
    ghost var done := updates;
    assert updates + EventUpdates(event, keys[..0], participating, toFloat) == updates;
    for j := 0 to |keys|
      invariant done == updates + EventUpdates(event, keys[..j], participating, toFloat)
      invariant series' == AllDiffs(pairs, done) && mostRecent' == Recent(done)
    {
      var name := keys[j];
      assert keys[..j + 1][..j] == keys[..j];
      if name in participating {
        mostRecent' := mostRecent'[name := toFloat(event[name])];
        ghost var u := Update(timestamp, name, toFloat(event[name]));
        assert (done + [u])[..|done|] == done;
        AllDiffsSnoc(pairs, done, u);
        done := done + [u];
        series' := RecordDifferences(series', name, timestamp, mostRecent');
      }
    }
    assert keys[..|keys|] == keys;
  }

  /** The accumulation of `plot_differences`: each requested pair's
      differences over the events. */
  method PlotDifferences(events: seq<Event>, order: Event -> seq<string>, differencesToPlot: seq<Pair>, toFloat: string -> real)
    returns (series: map<Pair, seq<Difference>>)
    requires Listed(events, order)
    ensures series == AllDiffs((set p | p in differencesToPlot), Updates(events, |events|, order, Participating(differencesToPlot), toFloat))
  {
    var participating := Participating(differencesToPlot);
    var mostRecent: map<string, real> := map[];
    series := map p | p in differencesToPlot :: [];
    ghost var pairs := series.Keys;
    ghost var updates: seq<Update> := [];
    for i := 0 to |events|
      invariant updates == Updates(events, i, order, participating, toFloat)
      invariant series == AllDiffs(pairs, updates) && mostRecent == Recent(updates)
    {
      var event := events[i];
      series, mostRecent := PlotEventDifferences(event, order(event), participating, toFloat, series, mostRecent, pairs, updates);
      updates := updates + EventUpdates(event, order(event), participating, toFloat);
    }
  }
}
