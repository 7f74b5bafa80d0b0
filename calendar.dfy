/** The calendar itself: which view it shows, which dates it has selected,
    its connected sources, and the small event bus through which widgets
    learn of date and view changes.

    A calendar is only handed out once construction has gone through every
    step without an exception, so construction is a static method that
    returns the calendar or the error that stopped it. The request target,
    the clock reading, the first-day-of-week and view attributes and the date
    parser are its parameters. Listeners are identifiers, and every call of
    a listener is appended to `invocations`, in call order. */
module Calendars {
  import opened Wrappers
  import opened Dates
  import opened EventBus
  import Periods
  import TimeSlots
  import Strings
  import Seqs
  import Urls
  import Sources
  import opened SourceSets
  import Layout

  const SupportedViews: seq<string> := ["agenda", "day", "week", "month"]
  const DefaultView: string := "week"
  const DefaultFirstDayOfWeek: int := 1

  datatype CalendarError =
    | Bus(error: BusError)
    | UnsupportedView(view: string)
    | InvalidDayOfWeek(value: int)
    | UrlTypeError
    | DateParse(text: string)
    | ViewNotImplemented(view: string)
    | RenderTypeError

  /** The events every calendar registers, with their required parameters. */
  function DefaultRegistry(): map<string, seq<string>>
  {
    map[
      "view.registered" := ["view"],
      "view.selected" := ["view"],
      "parameter" := ["name", "value"],
      "widget" := ["widget"],
      "datechange" := ["date"]
    ]
  }

  /** The two events the calendar dispatches itself are registered with
      their default parameters. */
  predicate CanAnnounce(registered: map<string, seq<string>>)
  {
    && "datechange" in registered && registered["datechange"] == ["date"]
    && "view.selected" in registered && registered["view.selected"] == ["view"]
  }

  /** An optional attribute's value, or its default. */
  function OrDefault<T>(o: Option<T>, default: T): T
  {
    if o.Some? then o.value else default
  }

  /** No listener is subscribed to any event. */
  predicate Quiet(listeners: map<string, seq<Listener>>)
  {
    forall n :: n in listeners ==> listeners[n] == []
  }

  function DateChange(date: Date): BusEvent
  {
    BusEvent("datechange", map["date" := DateValue(date)])
  }

  function ViewSelected(view: string): BusEvent
  {
    BusEvent("view.selected", map["view" := Text(view)])
  }

  /** How many days a view shows at once. */
  function PeriodOf(view: string): (days: int)
    ensures days == 1 || days == 7
  {
    if view == "day" then 1 else 7
  }

  /** PHP truthiness of a string: all but `""` and `"0"`. */
  predicate Truthy(s: string)
  {
    s != "" && s != "0"
  }

  /** The date the URL asks for, when it gives one that parses. */
  function QueryDate(q: Urls.Query, parseDate: string -> Option<Date>): Option<Date>
  {
    match Urls.TextOf(q, "date")
    case Ok(Some(t)) => parseDate(t)
    case _ => None
  }

  /** The view the URL asks for, when it gives a truthy one. */
  function QueryView(q: Urls.Query): Option<string>
  {
    match Urls.TextOf(q, "view")
    case Ok(Some(v)) => if Truthy(v) then Some(v) else None
    case _ => None
  }

  /** Whether the source with identifier `id` ends up selected: every source
      when the URL names none, else exactly the named ones. */
  predicate Wanted(q: Urls.Query, id: string)
  {
    match Urls.SourcesOf(q)
    case Some(ids) => |ids| == 0 || Some(id) in ids
    case None => true
  }

  /** How reading the date from the query ends: a list where a text is
      expected is a type error, and a text the parser rejects fails. */
  function DateStep(q: Urls.Query, parseDate: string -> Option<Date>): Outcome<CalendarError>
  {
    var date := Urls.TextOf(q, "date");
    if date.Err? then Fail(UrlTypeError)
    else if date.value.Some? && parseDate(date.value.value).None? then Fail(DateParse(date.value.value))
    else Pass
  }

  /** How reading the view from the query ends: a list is a type error, and
      a truthy view that is not supported fails. */
  function ViewStep(q: Urls.Query): Outcome<CalendarError>
  {
    var view := Urls.TextOf(q, "view");
    if view.Err? then Fail(UrlTypeError)
    else if view.value.Some? && Truthy(view.value.value) && view.value.value !in SupportedViews
    then Fail(UnsupportedView(view.value.value))
    else Pass
  }

  /** How selecting the sources of the query ends: a null among the named
      sources cannot be passed as an identifier. */
  function SourcesStep(q: Urls.Query): Outcome<CalendarError>
  {
    var ids := Urls.SourcesOf(q);
    if ids.Some? && |ids.value| > 0 && None in ids.value then Fail(UrlTypeError) else Pass
  }

  /** How `handleQueryParameters` ends for a given query: the date is read
      first, then the view, then the sources; the first failure wins. */
  function QueryOutcome(q: Urls.Query, parseDate: string -> Option<Date>): Outcome<CalendarError>
  {
    if DateStep(q, parseDate).Fail? then DateStep(q, parseDate)
    else if ViewStep(q).Fail? then ViewStep(q)
    else SourcesStep(q)
  }

  /** The texts of a list none of whose entries is null. */
  function Texts(l: seq<Option<string>>): (r: seq<string>)
    requires None !in l
    ensures |r| == |l| && forall i :: 0 <= i < |l| ==> l[i] == Some(r[i])
  {
    if l == [] then [] else [l[0].value] + Texts(l[1..])
  }

  /** Spreading a list into `select($first, ...$rest)` selects exactly the
      identifiers in the list. */
  lemma SpreadSelects(l: seq<Option<string>>, id: string)
    requires |l| > 0 && None !in l
    ensures id == l[0].value || id in Texts(l[1..]) <==> Some(id) in l
  {
    var rest := Texts(l[1..]);
    assert l[0] == Some(l[0].value);
    if id in rest {
      var k :| 0 <= k < |rest| && rest[k] == id;
      assert l[k + 1] == Some(id);
    }
    if Some(id) in l {
      var k :| 0 <= k < |l| && l[k] == Some(id);
      if k > 0 {
        assert rest[k - 1] == id;
      }
    }
  }

  class Calendar {
    /** ISO weekday the week view starts on, 1 = Monday. */
    const weekStartsOn: int
    /** The clock reading taken at construction, in the calendar's zone. */
    const now: ZonedDateTime
    const timeSlots: TimeSlots.TimeSlots
    var url: Urls.Url
    var view: string
    var period: int
    /** Whether `update` has run, i.e. the date fields are initialised. */
    var datesAssigned: bool
    var currentDate: Date
    var currentRange: Periods.DateRange
    var selectedDate: Date
    var selectedRange: Periods.DateRange
    var registered: map<string, seq<string>>
    var listeners: map<string, seq<Listener>>
    /** Events dispatched so far, kept for listeners that subscribe later. */
    var dispatched: seq<BusEvent>
    var invocations: seq<Invocation>
    var sources: SourceSet

    /** What holds from the end of the constructor's first steps on. */
    ghost predicate Basic()
      reads this`view, this`period, this`registered, this`listeners, this`sources, sources
    {
      && 1 <= weekStartsOn <= 7
      && period == PeriodOf(view)
      && timeSlots == TimeSlots.CalendarGrid()
      && CanAnnounce(registered)
      && registered.Keys <= listeners.Keys
      && sources.Valid()
    }

    /** What holds once `update` has run: today is the clock's date and both
        ranges are the periods around their dates. */
    ghost predicate Valid()
      reads this`view, this`period, this`registered, this`listeners, this`sources, sources
      reads this`datesAssigned, this`currentDate, this`currentRange, this`selectedDate, this`selectedRange
    {
      && Basic()
      && datesAssigned
      && currentDate == now.Date()
      && currentRange == Periods.RangeOf(currentDate, period, weekStartsOn)
      && selectedRange == Periods.RangeOf(selectedDate, period, weekStartsOn)
    }

    /** The constructor up to the initial view selection: the default events
        registered with no listeners, the first day of the week, the clock
        reading and the 07:00-19:00 grid of quarter hours. View, period and
        dates are not assigned yet; the view is empty, so `period` holds
        the week's seven days. */
    constructor Init(weekStartsOn: int, now: ZonedDateTime, url: Urls.Url, sources: SourceSet)
      requires 1 <= weekStartsOn <= 7 && sources.Valid()
      ensures Basic() && !datesAssigned
      ensures this.weekStartsOn == weekStartsOn && this.now == now && this.url == url && this.sources == sources
      ensures registered == DefaultRegistry()
      ensures listeners.Keys == registered.Keys && Quiet(listeners)
      ensures dispatched == [] && invocations == []
    {
      this.weekStartsOn, this.now, this.url, this.sources := weekStartsOn, now, url, sources;
      timeSlots := TimeSlots.CalendarGrid();
      view, period, datesAssigned := "", 7, false;
      currentDate, selectedDate := 0, 0;
      currentRange, selectedRange := Periods.DateRange(0, 0), Periods.DateRange(0, 0);
      registered, listeners := map[], map[];
      dispatched, invocations := [], [];
      new;
      RegisterDefaultEvents();
    }

    /** `registerDefaultEvents` on an empty registry. */
    method RegisterDefaultEvents()
      requires registered == map[] && listeners == map[]
      modifies this`registered, this`listeners
      ensures registered == DefaultRegistry()
      ensures listeners.Keys == registered.Keys && Quiet(listeners)
    {
      LowerCaseNames();
      var r := RegisterEvent("view.registered", ["view"]);
      assert registered == map["view.registered" := ["view"]];
      r := RegisterEvent("view.selected", ["view"]);
      assert registered == map["view.registered" := ["view"], "view.selected" := ["view"]];
      r := RegisterEvent("parameter", ["name", "value"]);
      assert registered == map["view.registered" := ["view"], "view.selected" := ["view"], "parameter" := ["name", "value"]];
      r := RegisterEvent("widget", ["widget"]);
      assert "datechange" !in registered;
      r := RegisterEvent("datechange", ["date"]);
    }

    /** `registerEvent`: the name is lower-cased; a second registration of
        it fails; a new one replaces any listeners already kept under it by
        an empty list. */
    method RegisterEvent(name: string, required: seq<string>) returns (r: Outcome<BusError>)
      modifies this`registered, this`listeners
      ensures var key := Strings.ToLower(name);
        if key in old(registered) then
          r == Fail(AlreadyRegistered(key)) && registered == old(registered) && listeners == old(listeners)
        else
          r == Pass && registered == old(registered)[key := required] && listeners == old(listeners)[key := []]
    {
      var key := Strings.ToLower(name);
      if key in registered {
        return Fail(AlreadyRegistered(key));
      }
      registered := registered[key := required];
      listeners := listeners[key := []];
      r := Pass;
    }

    /** `createEvent`: the name is taken as given (not lower-cased); the
        required names are shifted off one at a time and moved from the
        parameters into the event. */
    method CreateEvent(name: string, params: map<string, Value>) returns (r: Result<BusEvent, BusError>)
      ensures name !in registered ==> r == Err(NotRegistered(name))
      ensures name in registered ==> r == Shift(name, registered[name], params, map[])
    {
      if name !in registered {
        return Err(NotRegistered(name));
      }
      var remaining := registered[name];
      var rest := params;
      var fields: map<string, Value> := map[];
      while remaining != []
        invariant Shift(name, remaining, rest, fields) == Shift(name, registered[name], params, map[])
        decreases |remaining|
      {
        var param := remaining[0];
        remaining := remaining[1..];
        if param !in rest {
          return Err(MissingParameter(param));
        }
        fields := fields[param := rest[param]];
        rest := rest - {param};
      }
      if rest != map[] {
        return Err(UnknownParameters(rest.Keys));
      }
      r := Ok(BusEvent(name, fields));
    }

    /** `dispatchEvent`: an unregistered name fails; otherwise the listeners
        kept under the name are called in order and the event is recorded
        once. The listeners are found by comparing each key strictly with
        the name, and a name PHP keeps as an integer key never equals its
        text, so such an event reaches nobody and is not recorded. */
    method DispatchEvent(e: BusEvent) returns (r: Outcome<BusError>)
      modifies this`dispatched, this`invocations
      ensures e.name !in registered ==>
        r == Fail(NotRegistered(e.name)) && dispatched == old(dispatched) && invocations == old(invocations)
      ensures e.name in registered ==> r == Pass
      ensures e.name in registered && e.name in listeners && !IntegerKey(e.name) ==>
        && invocations == old(invocations) + Deliveries(listeners[e.name], e)
        && dispatched == old(dispatched) + [e]
      ensures e.name in registered && (e.name !in listeners || IntegerKey(e.name)) ==>
        invocations == old(invocations) && dispatched == old(dispatched)
    {
      if e.name !in registered {
        return Fail(NotRegistered(e.name));
      }
      r := Pass;
      if e.name in listeners && !IntegerKey(e.name) {
        var ls := listeners[e.name];
        for i := 0 to |ls|
          invariant invocations == old(invocations) + Deliveries(ls[..i], e)
          invariant dispatched == old(dispatched)
        {
          assert Deliveries(ls[..i + 1], e) == Deliveries(ls[..i], e) + [Invocation(ls[i], e)];
          invocations := invocations + [Invocation(ls[i], e)];
        }
        assert ls[..|ls|] == ls;
        dispatched := dispatched + [e];
      }
    }

    /** `listenOnEvent`: the listener is kept under the name as given, and
        every event of that name dispatched so far is delivered to it alone,
        in dispatch order. A listener new to the calendar has thereby seen
        the whole history of the name; no other listener is called. */
    method ListenOnEvent(name: string, l: Listener)
      modifies this`listeners, this`invocations
      ensures listeners == old(listeners)[name := (if name in old(listeners) then old(listeners)[name] else []) + [l]]
      ensures invocations == old(invocations) + Replays(l, dispatched, name)
      ensures Seen(l, old(invocations)) == [] ==> Seen(l, invocations) == Seqs.Filter(dispatched, Named(name))
      ensures forall other :: other != l ==> Seen(other, invocations) == Seen(other, old(invocations))
    {
      var kept := if name in listeners then listeners[name] else [];
      listeners := listeners[name := kept + [l]];
      for i := 0 to |dispatched|
        invariant invocations == old(invocations) + Replays(l, dispatched[..i], name)
        invariant listeners == old(listeners)[name := kept + [l]]
      {
        assert dispatched[..i + 1][..i] == dispatched[..i];
        if dispatched[i].name == name {
          invocations := invocations + [Invocation(l, dispatched[i])];
        }
      }
      assert dispatched[..|dispatched|] == dispatched;
      ReplayedHistory(l, old(invocations), dispatched, name);
    }

    /** `getDateRangeThatIncludes`: the range of the current period that
        holds `date`. */
    method DateRangeThatIncludes(date: Date) returns (r: Periods.DateRange)
      requires period >= 1 && 1 <= weekStartsOn <= 7
      ensures r == Periods.RangeOf(date, period, weekStartsOn)
      ensures r.Contains(date) && r.Days() == period
    {
      var startsFrom := Periods.FirstDayOfPeriodRelativeTo(date, period, weekStartsOn);
      var endsAt := date + (period - (date - startsFrom) - 1);
      r := Periods.DateRange(startsFrom, endsAt);
      Periods.RangeOfContains(date, period, weekStartsOn);
    }

    /** `update`: today is re-read from the clock reading, `date` becomes the
        selected date, both ranges are recomputed for the current period, and
        a `datechange` event for `date` is dispatched. */
    method Update(date: Date)
      requires Basic()
      modifies this`currentDate, this`currentRange, this`selectedDate, this`selectedRange, this`datesAssigned,
               this`dispatched, this`invocations
      ensures Valid() && selectedDate == date
      ensures view == old(view) && period == old(period) && url == old(url) && sources == old(sources)
      ensures registered == old(registered) && listeners == old(listeners)
      ensures dispatched == old(dispatched) + [DateChange(date)]
      ensures invocations == old(invocations) + Deliveries(listeners["datechange"], DateChange(date))
      ensures Quiet(listeners) ==> invocations == old(invocations)
    {
      AssignDates(date);
      NotDigitLed("datechange");
      Announce("datechange", "date", DateValue(date));
    }

    /** `createEvent` followed by `dispatchEvent` for an event with one
        required parameter: the event is built and recorded, and every
        listener kept under its name is called with it. */
    method Announce(name: string, param: string, v: Value)
      requires name in registered && registered[name] == [param] && name in listeners && !IntegerKey(name)
      modifies this`dispatched, this`invocations
      ensures dispatched == old(dispatched) + [BusEvent(name, map[param := v])]
      ensures invocations == old(invocations) + Deliveries(listeners[name], BusEvent(name, map[param := v]))
    {
      SingleParameter(name, param, v);
      var created := CreateEvent(name, map[param := v]);
      var o := DispatchEvent(created.value);
    }

    /** The assignments of `update`: today from the clock reading, the
        selected date, and the ranges around both. */
    method AssignDates(date: Date)
      requires Basic()
      modifies this`currentDate, this`currentRange, this`selectedDate, this`selectedRange, this`datesAssigned
      ensures Valid() && selectedDate == date
    {
      currentDate := now.Date();
      currentRange := DateRangeThatIncludes(currentDate);
      selectedDate := date;
      selectedRange := DateRangeThatIncludes(date);
      datesAssigned := true;
    }

    /** `selectView`: an unsupported view fails and changes nothing. A
        supported one becomes the view, sets the period (one day for the day
        view, seven otherwise), re-runs `update` on the selected date (today
        before any date is selected) and dispatches `view.selected`. */
    method SelectView(type_: string) returns (r: Outcome<CalendarError>)
      requires Basic()
      modifies this`view, this`period, this`currentDate, this`currentRange, this`selectedDate, this`selectedRange, this`datesAssigned,
               this`dispatched, this`invocations
      ensures type_ !in SupportedViews ==> r == Fail(UnsupportedView(type_)) && unchanged(this)
      ensures type_ in SupportedViews ==>
        && r == Pass && Valid()
        && view == type_ && period == PeriodOf(type_)
        && selectedDate == (if old(datesAssigned) then old(selectedDate) else now.Date())
        && url == old(url) && sources == old(sources)
        && registered == old(registered) && listeners == old(listeners)
        && dispatched == old(dispatched) + [DateChange(selectedDate), ViewSelected(type_)]
        && invocations == old(invocations) + Deliveries(listeners["datechange"], DateChange(selectedDate))
                                           + Deliveries(listeners["view.selected"], ViewSelected(type_))
      ensures Quiet(listeners) ==> invocations == old(invocations)
    {
      if type_ !in SupportedViews {
        return Fail(UnsupportedView(type_));
      }
      view := type_;
      period := if type_ == "day" then 1 else if type_ == "week" then 7 else 7;
      Update(if datesAssigned then selectedDate else now.Date());
      NotDigitLed("view.selected");
      Announce("view.selected", "view", Text(type_));
      r := Pass;
    }

    /** `connectTo`: the sources become a new set of fresh clones of the
        old members, with `s` itself added at the end unless a source with
        its identifier is already there. */
    method ConnectTo(s: Sources.InMemory)
      requires Basic()
      modifies this`sources
      ensures fresh(sources) && sources.Valid()
      ensures |old(sources.sources)| <= |sources.sources|
      ensures forall i :: 0 <= i < |old(sources.sources)| ==>
        && fresh(sources.sources[i])
        && sources.sources[i].id == old(sources.sources[i].id)
        && sources.sources[i].name == old(sources.sources[i].name)
        && sources.sources[i].colour == old(sources.sources[i].colour)
        && sources.sources[i].events == old(sources.sources[i].events)
        && sources.sources[i].selected == old(sources.sources[i].selected)
      ensures HasId(old(sources.sources), s.id) ==> |sources.sources| == |old(sources.sources)|
      ensures !HasId(old(sources.sources), s.id) ==>
        |sources.sources| == |old(sources.sources)| + 1 && sources.sources[|old(sources.sources)|] == s
    {
      var before := sources.sources;
      sources := sources.Add(s, []);
      assert [s] + [] == [s];
      assert AddAll(before, [s]) == if HasId(before, s.id) then before else before + [s];
    }

    /** `disconnectFrom`: the sources become a new set without the very
        object `s`; every other member stays, in order. */
    method DisconnectFrom(s: Sources.InMemory)
      requires Basic()
      modifies this`sources
      ensures fresh(sources) && sources.Valid()
      ensures s !in sources.sources
      ensures forall i :: 0 <= i < |old(sources.sources)| && old(sources.sources[i]) != s ==>
        old(sources.sources[i]) in sources.sources
      ensures forall x :: x in sources.sources ==> x in old(sources.sources)
      ensures sources.sources == Seqs.Filter(old(sources.sources), (x: Sources.InMemory) => x != s)
    {
      sources := sources.Remove(s);
    }

    /** `handleQueryParameters`: a date in the URL is parsed and selected; a
        truthy view in the URL is selected; the sources named in the URL are
        selected and the others deselected, or every source is selected when
        the URL names none. The outcome is fixed by the query alone; after a
        failure the steps before it have taken effect. */
    method HandleQueryParameters(parseDate: string -> Option<Date>) returns (r: Outcome<CalendarError>)
      requires Valid()
      modifies this`view, this`period, this`currentDate, this`currentRange, this`selectedDate, this`selectedRange,
               this`datesAssigned, this`dispatched, this`invocations, sources.sources`selected
      ensures r == QueryOutcome(old(url.query), parseDate)
      ensures Quiet(listeners) ==> invocations == old(invocations)
      ensures r.Pass? ==>
        var q := old(url.query);
        && Valid() && sources.sources == old(sources.sources)
        && selectedDate == (if QueryDate(q, parseDate).Some? then QueryDate(q, parseDate).value else old(selectedDate))
        && view == (if QueryView(q).Some? then QueryView(q).value else old(view))
        && period == PeriodOf(view)
        && selectedRange == Periods.RangeOf(selectedDate, PeriodOf(view), weekStartsOn)
        && dispatched == old(dispatched)
             + (if QueryDate(q, parseDate).Some? then [DateChange(QueryDate(q, parseDate).value)] else [])
             + (if QueryView(q).Some? then [DateChange(selectedDate), ViewSelected(view)] else [])
        && invocations == old(invocations)
             + (if QueryDate(q, parseDate).Some?
                then Deliveries(listeners["datechange"], DateChange(QueryDate(q, parseDate).value)) else [])
             + (if QueryView(q).Some?
                then Deliveries(listeners["datechange"], DateChange(selectedDate))
                     + Deliveries(listeners["view.selected"], ViewSelected(view))
                else [])
        && forall i :: 0 <= i < |sources.sources| ==> sources.sources[i].selected == Wanted(q, sources.sources[i].id)
    {
      var q := url.query;
      r := ApplyQueryDate(q, parseDate);
      if r.Fail? {
        return;
      }
      r := ApplyQueryView(q);
      if r.Fail? {
        return;
      }
      r := ApplyQuerySources(q);
    }

    /** The date step of `handleQueryParameters`. */
    method ApplyQueryDate(q: Urls.Query, parseDate: string -> Option<Date>) returns (r: Outcome<CalendarError>)
      requires Valid()
      modifies this`currentDate, this`currentRange, this`selectedDate, this`selectedRange, this`datesAssigned,
               this`dispatched, this`invocations
      ensures r == DateStep(q, parseDate)
      ensures Quiet(listeners) ==> invocations == old(invocations)
      ensures r.Pass? ==>
        && Valid()
        && selectedDate == (if QueryDate(q, parseDate).Some? then QueryDate(q, parseDate).value else old(selectedDate))
        && dispatched == old(dispatched)
             + (if QueryDate(q, parseDate).Some? then [DateChange(QueryDate(q, parseDate).value)] else [])
        && invocations == old(invocations)
             + (if QueryDate(q, parseDate).Some?
                then Deliveries(listeners["datechange"], DateChange(QueryDate(q, parseDate).value)) else [])
    {
      var dateText := Urls.TextOf(q, "date");
      if dateText.Err? {
        return Fail(UrlTypeError);
      }
      if dateText.value.Some? {
        var parsed := parseDate(dateText.value.value);
        if parsed.None? {
          return Fail(DateParse(dateText.value.value));
        }
        Update(parsed.value);
      }
      r := Pass;
    }

    /** The view step of `handleQueryParameters`. */
    method ApplyQueryView(q: Urls.Query) returns (r: Outcome<CalendarError>)
      requires Valid()
      modifies this`view, this`period, this`currentDate, this`currentRange, this`selectedDate, this`selectedRange,
               this`datesAssigned, this`dispatched, this`invocations
      ensures r == ViewStep(q)
      ensures Quiet(listeners) ==> invocations == old(invocations)
      ensures r.Pass? ==>
        && Valid() && selectedDate == old(selectedDate)
        && view == (if QueryView(q).Some? then QueryView(q).value else old(view))
        && period == PeriodOf(view)
        && dispatched == old(dispatched) + (if QueryView(q).Some? then [DateChange(selectedDate), ViewSelected(view)] else [])
        && invocations == old(invocations)
             + (if QueryView(q).Some?
                then Deliveries(listeners["datechange"], DateChange(selectedDate))
                     + Deliveries(listeners["view.selected"], ViewSelected(view))
                else [])
    {
      var viewText := Urls.TextOf(q, "view");
      if viewText.Err? {
        return Fail(UrlTypeError);
      }
      r := Pass;
      if viewText.value.Some? && Truthy(viewText.value.value) {
        r := SelectView(viewText.value.value);
      }
    }

    /** The sources step of `handleQueryParameters`. */
    method ApplyQuerySources(q: Urls.Query) returns (r: Outcome<CalendarError>)
      requires Valid()
      modifies sources.sources`selected
      ensures r == SourcesStep(q)
      ensures r.Pass? ==>
        forall i :: 0 <= i < |sources.sources| ==> sources.sources[i].selected == Wanted(q, sources.sources[i].id)
    {
      var ids := Urls.SourcesOf(q);
      if ids.Some? && |ids.value| > 0 {
        if None in ids.value {
          return Fail(UrlTypeError);
        }
        sources.Select(ids.value[0].value, Texts(ids.value[1..]));
        forall i | 0 <= i < |sources.sources|
          ensures sources.sources[i].selected == Wanted(q, sources.sources[i].id)
        {
          SpreadSelects(ids.value, sources.sources[i].id);
        }
      } else {
        sources.SelectAll();
      }
      r := Pass;
    }

    /** `buildView`: the month and agenda views are not implemented; every
        other view is the week grid over the selected range, one column per
        selected source, with the selected day and today marked. */
    method BuildView() returns (r: Result<Layout.WeekView, CalendarError>)
      requires Valid()
      ensures view == "month" || view == "agenda" ==> r == Err(ViewNotImplemented(view))
      ensures view != "month" && view != "agenda" ==> r.Ok?
      ensures r.Ok? ==>
        && r.value.dayCount == period && r.value.rowCount == 49 && |r.value.days| == period
        && Layout.ShowsRange(r.value.days, selectedRange, selectedDate, now.Date(),
                             WithSelection(sources.sources, true), TimeSlots.Slots(timeSlots), 15)
        && (exists k :: 0 <= k < period && r.value.days[k].date == selectedDate && r.value.days[k].selected)
    {
      if view == "month" || view == "agenda" {
        return Err(ViewNotImplemented(view));
      }
      var selected := sources.GetSelected();
      TimeSlots.CalendarGridSlots();
      var slots := TimeSlots.Generate(timeSlots);
      Periods.RangeOfContains(selectedDate, period, weekStartsOn);
      var grid := Layout.BuildWeekView(selectedRange, period, selectedDate, now.Date(), selected.sources, slots, 15);
      var k := selectedDate - selectedRange.start;
      assert grid.days[k].date == selectedDate && grid.days[k].selected;
      r := Ok(grid);
    }

    /** `buildView` as written: the label of an event cell is the event's
        `name`, a property `Event` does not have, so the null it reads is
        refused by `appendContent` with a type error. The grid therefore
        fails as soon as one shown day of one selected source places an
        event, and succeeds only when it holds no event cell at all. */
    method BuildViewAsWritten() returns (r: Result<Layout.WeekView, CalendarError>)
      requires Valid()
      ensures view == "month" || view == "agenda" ==> r == Err(ViewNotImplemented(view))
      ensures view != "month" && view != "agenda" ==>
        (r == Err(RenderTypeError) <==>
          Layout.RangeShowsEvent(selectedRange, WithSelection(sources.sources, true), TimeSlots.Slots(timeSlots), 15))
      ensures r.Ok? ==>
        && Layout.ShowsRange(r.value.days, selectedRange, selectedDate, now.Date(),
                             WithSelection(sources.sources, true), TimeSlots.Slots(timeSlots), 15)
        && forall k :: 0 <= k < |r.value.days| ==> !Layout.HasEventCell(r.value.days[k].cells)
    {
      r := BuildView();
      if r.Ok? {
        var days := r.value.days;
        Layout.GridEventCells(days, selectedRange, selectedDate, now.Date(),
                              WithSelection(sources.sources, true), TimeSlots.Slots(timeSlots), 15);
        if exists k :: 0 <= k < |days| && Layout.HasEventCell(days[k].cells) {
          r := Err(RenderTypeError);
        }
      }
    }

    /** `new Calendar(...)` followed by its own steps: the first day of the
        week must be a weekday number; the view attribute (the week view
        when absent) is selected, today is selected, then the URL's
        parameters are applied: its date, its view and its sources win over
        today, the attribute and "all selected". Nobody can have subscribed
        yet, so no listener is called, and the history holds the two date
        changes and the view selection of those steps followed by the
        events of the query's date and view. */
    static method Create(sources: SourceSet, requestTarget: Option<string>, firstDayOfWeek: Option<int>,
                         now: ZonedDateTime, viewAttribute: Option<string>, parseDate: string -> Option<Date>)
      returns (r: Result<Calendar, CalendarError>)
      requires sources.Valid()
      modifies sources.sources`selected
      ensures !(1 <= OrDefault(firstDayOfWeek, DefaultFirstDayOfWeek) <= 7) ==>
        r == Err(InvalidDayOfWeek(OrDefault(firstDayOfWeek, DefaultFirstDayOfWeek)))
      ensures 1 <= OrDefault(firstDayOfWeek, DefaultFirstDayOfWeek) <= 7 && OrDefault(viewAttribute, DefaultView) !in SupportedViews ==>
        r == Err(UnsupportedView(OrDefault(viewAttribute, DefaultView)))
      ensures 1 <= OrDefault(firstDayOfWeek, DefaultFirstDayOfWeek) <= 7 && OrDefault(viewAttribute, DefaultView) in SupportedViews ==>
        var outcome := QueryOutcome(Urls.ParseText(Urls.SplitTarget(OrDefault(requestTarget, "")).1), parseDate);
        && (r.Ok? <==> outcome.Pass?)
        && (r.Err? ==> r.error == outcome.error)
      ensures r.Ok? ==>
        var q := Urls.ParseText(Urls.SplitTarget(OrDefault(requestTarget, "")).1);
        var c := r.value;
        && fresh(c) && c.Valid()
        && c.now == now && c.sources == sources && sources.sources == old(sources.sources)
        && c.weekStartsOn == OrDefault(firstDayOfWeek, DefaultFirstDayOfWeek)
        && c.view == (if QueryView(q).Some? then QueryView(q).value else OrDefault(viewAttribute, DefaultView))
        && c.period == PeriodOf(c.view)
        && c.selectedDate == (if QueryDate(q, parseDate).Some? then QueryDate(q, parseDate).value else now.Date())
        && c.selectedRange == Periods.RangeOf(c.selectedDate, c.period, c.weekStartsOn)
        && c.currentDate == now.Date()
        && c.invocations == []
        && c.dispatched == [DateChange(now.Date()), ViewSelected(OrDefault(viewAttribute, DefaultView)), DateChange(now.Date())]
             + (if QueryDate(q, parseDate).Some? then [DateChange(QueryDate(q, parseDate).value)] else [])
             + (if QueryView(q).Some? then [DateChange(c.selectedDate), ViewSelected(c.view)] else [])
        && forall i :: 0 <= i < |sources.sources| ==> sources.sources[i].selected == Wanted(q, sources.sources[i].id)
    {
      var made := Open(sources, requestTarget, OrDefault(firstDayOfWeek, DefaultFirstDayOfWeek), now,
                         OrDefault(viewAttribute, DefaultView));
      if made.Err? {
        return Err(made.error);
      }
      var c := made.value;
      var handled := c.HandleQueryParameters(parseDate);
      if handled.Fail? {
        return Err(handled.error);
      }
      r := Ok(c);
    }

    /** The steps of the constructor before `handleQueryParameters`. */
    static method Open(sources: SourceSet, requestTarget: Option<string>, w: int, now: ZonedDateTime, v: string)
      returns (r: Result<Calendar, CalendarError>)
      requires sources.Valid()
      ensures !(1 <= w <= 7) ==> r == Err(InvalidDayOfWeek(w))
      ensures 1 <= w <= 7 && v !in SupportedViews ==> r == Err(UnsupportedView(v))
      ensures 1 <= w <= 7 && v in SupportedViews ==> r.Ok?
      ensures r.Ok? ==>
        && fresh(r.value) && fresh(r.value.url) && r.value.Valid() && Quiet(r.value.listeners)
        && r.value.url.query == Urls.ParseText(Urls.SplitTarget(OrDefault(requestTarget, "")).1)
        && r.value.now == now && r.value.sources == sources && r.value.weekStartsOn == w
        && r.value.view == v && r.value.selectedDate == now.Date()
        && r.value.invocations == []
        && r.value.dispatched == [DateChange(now.Date()), ViewSelected(v), DateChange(now.Date())]
    {
      if !(1 <= w <= 7) {
        return Err(InvalidDayOfWeek(w));
      }
      var u := Urls.Url.FromServer(requestTarget);
      var c := new Calendar.Init(w, now, u, sources);
      var started := c.Start(v);
      if started.Fail? {
        return Err(started.error);
      }
      r := Ok(c);
    }

    /** The constructor's view selection followed by its `update` to today,
        on a calendar nobody listens to yet. */
    method Start(v: string) returns (r: Outcome<CalendarError>)
      requires Basic() && !datesAssigned && dispatched == [] && invocations == [] && Quiet(listeners)
      modifies this`view, this`period, this`currentDate, this`currentRange, this`selectedDate, this`selectedRange,
               this`datesAssigned, this`dispatched, this`invocations
      ensures v !in SupportedViews ==> r == Fail(UnsupportedView(v))
      ensures v in SupportedViews ==>
        && r == Pass && Valid() && view == v && selectedDate == now.Date() && invocations == []
        && dispatched == [DateChange(now.Date()), ViewSelected(v), DateChange(now.Date())]
    {
      r := SelectView(v);
      if r.Fail? {
        return;
      }
      Update(now.Date());
    }
  }

  /** The default event names are already lower case, so registering them
      keeps them as written. */
  lemma LowerCaseNames()
    ensures Strings.ToLower("view.registered") == "view.registered"
    ensures Strings.ToLower("view.selected") == "view.selected"
    ensures Strings.ToLower("parameter") == "parameter"
    ensures Strings.ToLower("widget") == "widget"
    ensures Strings.ToLower("datechange") == "datechange"
  {
    AlreadyLower("view.registered");
    AlreadyLower("view.selected");
    AlreadyLower("parameter");
    AlreadyLower("widget");
    AlreadyLower("datechange");
  }

  lemma AlreadyLower(s: string)
    requires forall i :: 0 <= i < |s| ==> !Strings.IsUpper(s[i])
    ensures Strings.ToLower(s) == s
  {
  }
}
