/** The values the calendar's event bus carries, and what a dispatch or a
    late subscription delivers. Listeners are opaque identifiers; every call
    of a listener is recorded as an invocation, in call order. */
module EventBus {
  import opened Wrappers
  import opened Dates
  import Seqs

  type Listener = nat

  /** A parameter value: a date, a text, or anything else (a widget). */
  datatype Value = DateValue(date: Date) | Text(text: string) | Opaque(id: nat)

  /** The `stdClass` event `createEvent` builds: its name and parameters. */
  datatype BusEvent = BusEvent(name: string, params: map<string, Value>)

  datatype Invocation = Invocation(listener: Listener, event: BusEvent)

  /** The value of a text of decimal digits. */
  function DecimalValue(digits: string): int
  {
    if digits == [] then 0
    else DecimalValue(digits[..|digits| - 1]) * 10 + (digits[|digits| - 1] as int - '0' as int)
  }

  /** Whether PHP stores `s` as an integer array key: an optional `-`
      followed by decimal digits with no leading zero (so neither `-0` nor
      `+1`), whose value fits a 64-bit integer. */
  predicate IntegerKey(s: string)
  {
    var negative := |s| > 0 && s[0] == '-';
    var digits := if negative then s[1..] else s;
    && |digits| > 0
    && (forall i :: 0 <= i < |digits| ==> '0' <= digits[i] <= '9')
    && (digits[0] != '0' || s == "0")
    && DecimalValue(digits) <= (if negative then 0x8000_0000_0000_0000 else 0x7FFF_FFFF_FFFF_FFFF)
  }

  /** A year written as an event name becomes an integer key; a leading
      zero, `-0` or any letter keeps the name a string key. */
  lemma IntegerKeys()
    ensures IntegerKey("2024")
    ensures IntegerKey("-7")
    ensures IntegerKey("0")
    ensures !IntegerKey("02024")
    ensures !IntegerKey("-0")
    ensures !IntegerKey("datechange")
    ensures !IntegerKey("view.selected")
    ensures !IntegerKey("")
  {
    assert DecimalValue("2") == 2;
    assert DecimalValue("20") == 20 by { assert "20"[..1] == "2"; }
    assert DecimalValue("202") == 202 by { assert "202"[..2] == "20"; }
    assert DecimalValue("2024") == 2024 by { assert "2024"[..3] == "202"; }
    assert "-7"[1..] == "7" && DecimalValue("7") == 7;
    assert "-0"[1..] == "0";
    NotDigitLed("datechange");
    NotDigitLed("view.selected");
  }

  /** A name that starts with neither a digit nor `-` stays a string key. */
  lemma NotDigitLed(s: string)
    requires |s| > 0 && s[0] != '-' && !('0' <= s[0] <= '9')
    ensures !IntegerKey(s)
  {
    if IntegerKey(s) {
      DigitsOf(s);
    }
  }

  lemma DigitsOf(s: string)
    requires IntegerKey(s) && s[0] != '-'
    ensures forall i :: 0 <= i < |s| ==> '0' <= s[i] <= '9'
  {
  }

  /** A dispatch of `e`: each listener called with it, in subscription
      order. */
  function Deliveries(listeners: seq<Listener>, e: BusEvent): (r: seq<Invocation>)
    ensures |r| == |listeners|
    ensures forall i :: 0 <= i < |r| ==> r[i] == Invocation(listeners[i], e)
  {
    seq(|listeners|, i requires 0 <= i < |listeners| => Invocation(listeners[i], e))
  }

  function Named(name: string): BusEvent -> bool
  {
    (e: BusEvent) => e.name == name
  }

  /** A late subscription of `l` to `name`: every recorded event of that
      name, in dispatch order, delivered to `l` alone. */
  function Replays(l: Listener, history: seq<BusEvent>, name: string): (r: seq<Invocation>)
    ensures forall i :: 0 <= i < |r| ==> r[i].listener == l && r[i].event.name == name
  {
    if history == [] then []
    else
      var last := history[|history| - 1];
      Replays(l, history[..|history| - 1], name) + (if last.name == name then [Invocation(l, last)] else [])
  }

  /** The events delivered to `l`, in call order. */
  function Seen(l: Listener, log: seq<Invocation>): seq<BusEvent>
  {
    if log == [] then []
    else Seen(l, log[..|log| - 1]) + (if log[|log| - 1].listener == l then [log[|log| - 1].event] else [])
  }

  lemma {:induction false} SeenConcat(l: Listener, a: seq<Invocation>, b: seq<Invocation>)
    ensures Seen(l, a + b) == Seen(l, a) + Seen(l, b)
    decreases |b|
  {
    if b == [] {
      assert a + b == a;
    } else {
      assert (a + b)[..|a + b| - 1] == a + b[..|b| - 1];
      SeenConcat(l, a, b[..|b| - 1]);
    }
  }

  /** A dispatch delivers the event to a listener once per time it is
      subscribed, and to nobody else. */
  lemma {:induction false} SeenDeliveries(l: Listener, listeners: seq<Listener>, e: BusEvent)
    ensures l !in listeners ==> Seen(l, Deliveries(listeners, e)) == []
    ensures |Seen(l, Deliveries(listeners, e))| == multiset(listeners)[l]
    ensures forall x :: x in Seen(l, Deliveries(listeners, e)) ==> x == e
  {
    if listeners != [] {
      var n := |listeners|;
      SeenDeliveries(l, listeners[..n - 1], e);
      assert Deliveries(listeners, e)[..n - 1] == Deliveries(listeners[..n - 1], e);
      assert listeners == listeners[..n - 1] + [listeners[n - 1]];
    }
  }

  /** A replay delivers to the new listener exactly the recorded events of
      its name, in dispatch order, and to nobody else. */
  lemma {:induction false} SeenReplays(l: Listener, history: seq<BusEvent>, name: string)
    ensures Seen(l, Replays(l, history, name)) == Seqs.Filter(history, Named(name))
    ensures forall other :: other != l ==> Seen(other, Replays(l, history, name)) == []
    decreases |history|
  {
    if history != [] {
      var n := |history|;
      var init, last := history[..n - 1], history[n - 1];
      SeenReplays(l, init, name);
      Seqs.FilterConcat(init, [last], Named(name));
      assert history == init + [last];
      var tail := if last.name == name then [Invocation(l, last)] else [];
      SeenConcat(l, Replays(l, init, name), tail);
      assert Seen(l, tail) == Seqs.Filter([last], Named(name)) by {
        assert [last][1..] == [];
      }
      forall other | other != l
        ensures Seen(other, Replays(l, history, name)) == []
      {
        SeenConcat(other, Replays(l, init, name), tail);
      }
    }
  }

  /** After a replay appended to a log, the new listener has seen exactly
      the recorded events of its name, if it had seen nothing before, and
      every other listener has seen what it saw before. */
  lemma ReplayedHistory(l: Listener, log: seq<Invocation>, history: seq<BusEvent>, name: string)
    ensures Seen(l, log) == [] ==> Seen(l, log + Replays(l, history, name)) == Seqs.Filter(history, Named(name))
    ensures forall other :: other != l ==> Seen(other, log + Replays(l, history, name)) == Seen(other, log)
  {
    SeenReplays(l, history, name);
    SeenConcat(l, log, Replays(l, history, name));
    forall other | other != l
      ensures Seen(other, log + Replays(l, history, name)) == Seen(other, log)
    {
      SeenConcat(other, log, Replays(l, history, name));
    }
  }

  /** Why registering, creating or dispatching an event failed (the
      `InvalidArgumentException`s of the bus). */
  datatype BusError =
    | NotRegistered(name: string)
    | AlreadyRegistered(name: string)
    | MissingParameter(param: string)
    | UnknownParameters(names: set<string>)

  predicate NoDuplicates(names: seq<string>)
  {
    forall i, j :: 0 <= i < j < |names| ==> names[i] != names[j]
  }

  function Elements(names: seq<string>): set<string>
  {
    set x | x in names
  }

  /** `createEvent` after the registration check: take the required names
      one at a time from the front, moving each from `params` into the
      event; a name not (or no longer) in `params` is missing; whatever is
      left over at the end is unknown. */
  function Shift(name: string, required: seq<string>, params: map<string, Value>, fields: map<string, Value>)
    : Result<BusEvent, BusError>
    decreases |required|
  {
    if required == [] then
      if params == map[] then Ok(BusEvent(name, fields)) else Err(UnknownParameters(params.Keys))
    else if required[0] !in params then Err(MissingParameter(required[0]))
    else Shift(name, required[1..], params - {required[0]}, fields[required[0] := params[required[0]]])
  }

  lemma NoDuplicatesCons(required: seq<string>)
    requires required != []
    ensures NoDuplicates(required) <==> required[0] !in required[1..] && NoDuplicates(required[1..])
    ensures Elements(required) == {required[0]} + Elements(required[1..])
  {
    var p, rest := required[0], required[1..];
    assert required == [p] + rest;
    if p in rest {
      var j :| 0 <= j < |rest| && rest[j] == p;
      assert required[0] == required[j + 1];
    } else if NoDuplicates(rest) {
      forall i, j | 0 <= i < j < |required| ensures required[i] != required[j] {
        if i > 0 {
          assert required[i] == rest[i - 1] && required[j] == rest[j - 1];
        } else {
          assert required[j] == rest[j - 1];
        }
      }
    }
    if NoDuplicates(required) {
      forall i, j | 0 <= i < j < |rest| ensures rest[i] != rest[j] {
        assert rest[i] == required[i + 1] && rest[j] == required[j + 1];
      }
    }
  }

  /** Event creation succeeds exactly when the parameters name each required
      parameter once and nothing else, and then the event carries them all. */
  lemma {:induction false} ShiftSucceeds(name: string, required: seq<string>, params: map<string, Value>,
                                         fields: map<string, Value>)
    ensures Shift(name, required, params, fields).Ok? <==>
      NoDuplicates(required) && Elements(required) == params.Keys
    ensures Shift(name, required, params, fields).Ok? ==>
      Shift(name, required, params, fields).value == BusEvent(name, fields + params)
    decreases |required|
  {
    if required == [] {
      assert Elements(required) == {};
      if params == map[] {
        assert fields + params == fields;
      } else {
        var k :| k in params;
      }
    } else {
      var p, rest := required[0], required[1..];
      NoDuplicatesCons(required);
      if p in params {
        var params', fields' := params - {p}, fields[p := params[p]];
        ShiftSucceeds(name, rest, params', fields');
        assert fields' + params' == fields + params;
        if p in rest {
          assert p in Elements(rest) && p !in params'.Keys;
        } else {
          assert Elements(required) == params.Keys <==> Elements(rest) == params'.Keys;
        }
      }
    }
  }

  /** An event with one required parameter is created from exactly that
      parameter. */
  lemma SingleParameter(name: string, param: string, v: Value)
    ensures Shift(name, [param], map[param := v], map[]) == Ok(BusEvent(name, map[param := v]))
  {
    assert map[param := v] - {param} == map[];
    assert [param][1..] == [];
  }

  /** A failed creation names one of the required parameters as missing, or
      some of the given parameters as unknown. */
  lemma {:induction false} ShiftFails(name: string, required: seq<string>, params: map<string, Value>,
                                      fields: map<string, Value>)
    ensures Shift(name, required, params, fields).Err? ==>
      match Shift(name, required, params, fields).error
      case MissingParameter(p) => p in required
      case UnknownParameters(ks) => ks != {} && ks <= params.Keys
      case _ => false
    decreases |required|
  {
    if required == [] {
      if params != map[] {
        var k :| k in params;
      }
    } else if required[0] in params {
      ShiftFails(name, required[1..], params - {required[0]}, fields[required[0] := params[required[0]]]);
    }
  }
}
