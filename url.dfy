/** The request address: a path plus the query string parsed into an
    ordered map from parameter names to values (`Url`).

    A pair without `=` carries PHP's `null`, which `isset` treats as absent;
    a name seen again turns its value into a list of all the values given
    for it, in order. */
module Urls {
  import opened Wrappers
  import Strings

  /** A query value: one (possibly null) text, or a list of them. */
  datatype QueryValue = Single(text: Option<string>) | Many(texts: seq<Option<string>>)

  datatype Entry = Entry(name: string, value: QueryValue)

  /** A PHP array with string keys: entries in insertion order. */
  type Query = seq<Entry>

  datatype UrlError =
    | TypeError       // a list where a single text is declared
    | StringAppend    // `[]` applied to a text

  /** The names of the entries, in insertion order. */
  function Names(q: Query): seq<string>
  {
    if q == [] then [] else [q[0].name] + Names(q[1..])
  }

  /** PHP array keys are distinct. */
  predicate Unique(q: Query)
  {
    forall i, j :: 0 <= i < j < |Names(q)| ==> Names(q)[i] != Names(q)[j]
  }

  function Lookup(q: Query, name: string): (r: Option<QueryValue>)
    ensures r.None? <==> name !in Names(q)
  {
    if q == [] then None
    else if q[0].name == name then Some(q[0].value)
    else Lookup(q[1..], name)
  }

  /** `$query[$name] = $value`. */
  function Assign(q: Query, name: string, v: QueryValue): (r: Query)
    ensures Lookup(r, name) == Some(v)
  {
    if q == [] then [Entry(name, v)]
    else if q[0].name == name then [Entry(name, v)] + q[1..]
    else [q[0]] + Assign(q[1..], name, v)
  }

  /** Assigning leaves every other name's value alone. */
  lemma {:induction false} AssignKeeps(q: Query, name: string, v: QueryValue, other: string)
    requires other != name
    ensures Lookup(Assign(q, name, v), other) == Lookup(q, other)
  {
    if q != [] && q[0].name != name {
      AssignKeeps(q[1..], name, v, other);
    }
  }

  /** An existing name keeps its place, a new one goes last. */
  lemma {:induction false} AssignNames(q: Query, name: string, v: QueryValue)
    ensures Names(Assign(q, name, v)) == if name in Names(q) then Names(q) else Names(q) + [name]
  {
    if q != [] && q[0].name != name {
      AssignNames(q[1..], name, v);
    }
  }

  /** A second assignment to a name overrides the first. */
  lemma {:induction false} AssignTwice(q: Query, name: string, a: QueryValue, b: QueryValue)
    ensures Assign(Assign(q, name, a), name, b) == Assign(q, name, b)
  {
    if q != [] && q[0].name != name {
      AssignTwice(q[1..], name, a, b);
    }
  }

  /** Keys stay distinct. */
  lemma AssignUnique(q: Query, name: string, v: QueryValue)
    requires Unique(q)
    ensures Unique(Assign(q, name, v))
  {
    AssignNames(q, name, v);
  }

  /** `isset($query[$key])`: present and not null; a list always counts
      as given. */
  predicate QueryGiven(q: Query, key: string)
    ensures QueryGiven(q, key) ==> key in Names(q)
    ensures key in Names(q) && Lookup(q, key).value.Many? ==> QueryGiven(q, key)
  {
    Lookup(q, key).Some? && Lookup(q, key).value != Single(None)
  }

  /** A name assigned null is not given, one assigned a text is. */
  lemma AssignGiven(q: Query, key: string, t: string)
    ensures !QueryGiven(Assign(q, key, Single(None)), key)
    ensures QueryGiven(Assign(q, key, Single(Some(t))), key)
  {
  }

  /** One pair of the query string, split at its first `=`; without one the
      value is null. */
  function PairOf(pair: string): (r: (string, Option<string>))
    ensures '=' !in pair ==> r == (pair, None)
    ensures '=' in pair ==> '=' !in r.0 && r.1.Some? && pair == r.0 + "=" + r.1.value
  {
    var parts := Strings.SplitOnce(pair, '=');
    (parts[0], if |parts| == 2 then Some(parts[1]) else None)
  }

  /** One step of `parseQuery`: a name already set gains the value (a text
      becomes a two-element list), otherwise the value is stored as is. */
  function Absorb(q: Query, name: string, value: Option<string>): Query
  {
    match Lookup(q, name)
    case Some(Many(vs)) => Assign(q, name, Many(vs + [value]))
    case Some(Single(Some(t))) => Assign(q, name, Many([Some(t), value]))
    case _ => Assign(q, name, Single(value))
  }

  /** The pairs absorbed from first to last. */
  function ParsePairs(pairs: seq<string>): Query
  {
    if pairs == [] then []
    else
      var p := PairOf(pairs[|pairs| - 1]);
      Absorb(ParsePairs(pairs[..|pairs| - 1]), p.0, p.1)
  }

  /** Parsing yields distinct keys. */
  lemma {:induction false} ParseUnique(pairs: seq<string>)
    ensures Unique(ParsePairs(pairs))
  {
    if pairs != [] {
      var init := pairs[..|pairs| - 1];
      var p := PairOf(pairs[|pairs| - 1]);
      ParseUnique(init);
      AssignUnique(ParsePairs(init), p.0, Single(p.1));
      match Lookup(ParsePairs(init), p.0)
      case Some(Many(vs)) => AssignUnique(ParsePairs(init), p.0, Many(vs + [p.1]));
      case Some(Single(Some(t))) => AssignUnique(ParsePairs(init), p.0, Many([Some(t), p.1]));
      case _ =>
    }
  }

  /** `parseQuery`: the empty string gives the empty map, anything else is
      split at every `&`. */
  function ParseText(text: string): Query
  {
    if text == "" then [] else ParsePairs(Strings.Split(text, '&'))
  }

  /** `parseQuery` as the loop the source runs. */
  method ParseQuery(text: string) returns (q: Query)
    ensures q == ParseText(text)
    ensures text == "" ==> q == []
  {
    q := [];
    if text == "" {
      return;
    }
    var pairs := Strings.Split(text, '&');
    for i := 0 to |pairs|
      invariant q == ParsePairs(pairs[..i])
    {
      var parts := Strings.SplitOnce(pairs[i], '=');
      var name := parts[0];
      var value := if |parts| == 2 then Some(parts[1]) else None;
      match Lookup(q, name)
      case Some(Many(vs)) =>
        q := Assign(q, name, Many(vs + [value]));
      case Some(Single(Some(t))) =>
        q := Assign(q, name, Many([Some(t), value]));
      case _ =>
        q := Assign(q, name, Single(value));
      assert pairs[..i + 1][..i] == pairs[..i];
    }
    assert pairs[..|pairs|] == pairs;
  }

  /** The values given for `name`, in order. */
  function ValuesOf(pairs: seq<string>, name: string): seq<Option<string>>
  {
    if pairs == [] then []
    else
      var p := PairOf(pairs[|pairs| - 1]);
      ValuesOf(pairs[..|pairs| - 1], name) + (if p.0 == name then [p.1] else [])
  }

  predicate AllGiven(vs: seq<Option<string>>)
  {
    forall i :: 0 <= i < |vs| ==> vs[i].Some?
  }

  /** What `parseQuery` keeps for a list of values: nothing, the one value,
      or all of them as a list. */
  function Collected(vs: seq<Option<string>>): Option<QueryValue>
  {
    if vs == [] then None else if |vs| == 1 then Some(Single(vs[0])) else Some(Many(vs))
  }

  /** Absorbing a pair leaves every other name's value alone. */
  lemma AbsorbKeeps(q: Query, name: string, value: Option<string>, other: string)
    requires other != name
    ensures Lookup(Absorb(q, name, value), other) == Lookup(q, other)
  {
    match Lookup(q, name)
    case Some(Many(vs)) => AssignKeeps(q, name, Many(vs + [value]), other);
    case Some(Single(Some(t))) => AssignKeeps(q, name, Many([Some(t), value]), other);
    case _ => AssignKeeps(q, name, Single(value), other);
  }

  /** A name given only with `=` ends up with every value given for it, in
      order: none, one text, or the list of them. */
  lemma {:induction false} ParseCollects(pairs: seq<string>, name: string)
    requires AllGiven(ValuesOf(pairs, name))
    ensures Lookup(ParsePairs(pairs), name) == Collected(ValuesOf(pairs, name))
  {
    if pairs != [] {
      var init := pairs[..|pairs| - 1];
      var p := PairOf(pairs[|pairs| - 1]);
      var q := ParsePairs(init);
      var vs := ValuesOf(init, name);
      assert ParsePairs(pairs) == Absorb(q, p.0, p.1);
      assert ValuesOf(pairs, name) == vs + (if p.0 == name then [p.1] else []);
      assert AllGiven(vs) by {
        forall i | 0 <= i < |vs| ensures vs[i].Some? {
          assert vs[i] == ValuesOf(pairs, name)[i];
        }
      }
      ParseCollects(init, name);
      if p.0 != name {
        AbsorbKeeps(q, p.0, p.1, name);
        assert ValuesOf(pairs, name) == vs;
      } else {
        assert p.1 == ValuesOf(pairs, name)[|vs|];
        if |vs| == 1 {
          assert Lookup(q, name) == Some(Single(vs[0]));
          assert vs + [p.1] == [Some(vs[0].value), p.1];
        }
      }
    }
  }

  /** A pair without `=` stores null, which does not count as given, so a
      later value for the same name replaces it. */
  lemma NullThenValue(name: string, value: string)
    requires '=' !in name
    ensures var q := ParsePairs([name, name + "=" + value]);
      q == [Entry(name, Single(Some(value)))] && QueryGiven(q, name)
  {
    var pairs := [name, name + "=" + value];
    assert pairs[..1] == [name];
    assert [name][..0] == [];
    assert PairOf(name) == (name, None);
    var first := ParsePairs([name]);
    assert first == Absorb(ParsePairs([]), name, None);
    assert first == [Entry(name, Single(None))];
    Strings.SplitOnceAt(name, value, '=');
    assert PairOf(name + "=" + value) == (name, Some(value));
    assert ParsePairs(pairs) == Absorb(first, name, Some(value));
  }

  /** A value followed by a bare name becomes a list ending in null. */
  lemma ValueThenNull(name: string, value: string)
    requires '=' !in name
    ensures ParsePairs([name + "=" + value, name]) == [Entry(name, Many([Some(value), None]))]
  {
    var pairs := [name + "=" + value, name];
    assert pairs[..1] == [name + "=" + value];
    assert [name + "=" + value][..0] == [];
    Strings.SplitOnceAt(name, value, '=');
    assert PairOf(name + "=" + value) == (name, Some(value));
    var first := ParsePairs([name + "=" + value]);
    assert first == Absorb(ParsePairs([]), name, Some(value));
    assert first == [Entry(name, Single(Some(value)))];
    assert PairOf(name) == (name, None);
    assert ParsePairs(pairs) == Absorb(first, name, None);
  }

  /** `getView` and the text `getDate` hands to the date parser: absent when
      not given, the text when it is one, a type error when it is a list. */
  function TextOf(q: Query, key: string): (r: Result<Option<string>, UrlError>)
    ensures r == Ok(None) <==> !QueryGiven(q, key)
    ensures r.Err? <==> Lookup(q, key).Some? && Lookup(q, key).value.Many?
    ensures r.Ok? && r.value.Some? ==> Lookup(q, key) == Some(Single(r.value))
  {
    match Lookup(q, key)
    case Some(Single(Some(t))) => Ok(Some(t))
    case Some(Many(_)) => Err(TypeError)
    case _ => Ok(None)
  }

  /** `getSources`: absent when not given, else the value cast to a list. */
  function SourcesOf(q: Query): (r: Option<seq<Option<string>>>)
    ensures r.None? <==> !QueryGiven(q, "sources")
    ensures r.Some? && Lookup(q, "sources").value.Single? ==> r.value == [Lookup(q, "sources").value.text]
    ensures r.Some? && Lookup(q, "sources").value.Many? ==> r.value == Lookup(q, "sources").value.texts
  {
    match Lookup(q, "sources")
    case Some(Single(Some(t))) => Some([Some(t)])
    case Some(Many(vs)) => Some(vs)
    case _ => None
  }

  /** The query of `withSources`: the identifier appended to the list of
      sources (started empty when not given); a single text cannot be
      appended to. */
  function AppendSource(q: Query, id: string): Result<Query, UrlError>
  {
    match Lookup(q, "sources")
    case Some(Many(vs)) => Ok(Assign(q, "sources", Many(vs + [Some(id)])))
    case Some(Single(Some(_))) => Err(StringAppend)
    case _ => Ok(Assign(q, "sources", Many([Some(id)])))
  }

  /** After `withSources` the sources are the earlier ones plus the new
      identifier; it fails exactly when sources was a single text; nothing
      else in the query changes. */
  lemma AppendSourceAccumulates(q: Query, id: string)
    ensures AppendSource(q, id).Err? <==> Lookup(q, "sources").Some? && Lookup(q, "sources").value.Single? && QueryGiven(q, "sources")
    ensures AppendSource(q, id).Ok? ==>
      var r := AppendSource(q, id).value;
      && SourcesOf(r) == Some((if QueryGiven(q, "sources") then SourcesOf(q).value else []) + [Some(id)])
      && forall other :: other != "sources" ==> Lookup(r, other) == Lookup(q, other)
  {
    match Lookup(q, "sources")
    case Some(Many(vs)) =>
      forall other | other != "sources" ensures Lookup(Assign(q, "sources", Many(vs + [Some(id)])), other) == Lookup(q, other) {
        AssignKeeps(q, "sources", Many(vs + [Some(id)]), other);
      }
    case Some(Single(Some(_))) =>
    case _ =>
      assert !QueryGiven(q, "sources");
      assert Lookup(Assign(q, "sources", Many([Some(id)])), "sources") == Some(Many([Some(id)]));
      assert AppendSource(q, id) == Ok(Assign(q, "sources", Many([Some(id)])));
      assert [] + [Some(id)] == [Some(id)];
      forall other | other != "sources" ensures Lookup(Assign(q, "sources", Many([Some(id)])), other) == Lookup(q, other) {
        AssignKeeps(q, "sources", Many([Some(id)]), other);
      }
  }

  /** `withDate` and `withView` write a text that reads back unchanged. */
  lemma AssignReadsBack(q: Query, key: string, text: string)
    ensures TextOf(Assign(q, key, Single(Some(text))), key) == Ok(Some(text))
    ensures QueryGiven(Assign(q, key, Single(Some(text))), key)
  {
  }

  /** `fromServer`: the request target split at its first `?`; without one
      the query is empty. */
  function SplitTarget(target: string): (r: (string, string))
    ensures '?' !in target ==> r == (target, "")
    ensures '?' in target ==> '?' !in r.0 && target == r.0 + "?" + r.1
  {
    var parts := Strings.SplitOnce(target, '?');
    (parts[0], if |parts| == 2 then parts[1] else "")
  }

  /** `__toString`: the bare path for an empty query, else the path, `?` and
      the encoded query (`encode` stands for `http_build_query`). */
  function Render(path: string, q: Query, encode: Query -> string): string
  {
    if |q| == 0 then path else path + "?" + encode(q)
  }

  /** Reading back a rendered address gives the path and the encoded query
      again, as long as the path has no `?` of its own. */
  lemma {:induction false} RenderSplitTarget(path: string, q: Query, encode: Query -> string)
    requires '?' !in path
    ensures SplitTarget(Render(path, q, encode)) == (path, if |q| == 0 then "" else encode(q))
  {
    if |q| != 0 {
      Strings.SplitOnceAt(path, encode(q), '?');
    }
  }

  class Url {
    const path: string
    var query: Query

    constructor (path: string, queryText: string)
      ensures this.path == path && query == ParseText(queryText) && Unique(query)
    {
      var q := ParseQuery(queryText);
      if queryText != "" {
        ParseUnique(Strings.Split(queryText, '&'));
      }
      this.path := path;
      query := q;
    }

    /** PHP `clone`. */
    constructor Clone(from: Url)
      ensures path == from.path && query == from.query
    {
      path := from.path;
      query := from.query;
    }

    /** `fromServer`; a missing request target counts as empty. */
    static method FromServer(requestTarget: Option<string>) returns (u: Url)
      ensures fresh(u)
      ensures var t := if requestTarget.Some? then requestTarget.value else "";
        u.path == SplitTarget(t).0 && u.query == ParseText(SplitTarget(t).1)
    {
      var t := if requestTarget.Some? then requestTarget.value else "";
      var parts := Strings.SplitOnce(t, '?');
      u := new Url(parts[0], if |parts| == 2 then parts[1] else "");
    }

    /** `withDate`, given the date's ISO text. */
    method WithDate(date: string) returns (u: Url)
      ensures fresh(u) && u.path == path
      ensures u.query == Assign(query, "date", Single(Some(date)))
    {
      u := new Url.Clone(this);
      u.query := Assign(u.query, "date", Single(Some(date)));
    }

    /** `withView`, given the view type. */
    method WithView(view: string) returns (u: Url)
      ensures fresh(u) && u.path == path
      ensures u.query == Assign(query, "view", Single(Some(view)))
    {
      u := new Url.Clone(this);
      u.query := Assign(u.query, "view", Single(Some(view)));
    }

    /** `withSources`, given the source identifier. */
    method WithSources(id: string) returns (r: Result<Url, UrlError>)
      ensures AppendSource(query, id).Err? ==> r == Err(StringAppend)
      ensures AppendSource(query, id).Ok? ==>
        r.Ok? && fresh(r.value) && r.value.path == path && r.value.query == AppendSource(query, id).value
    {
      var u := new Url.Clone(this);
      if !QueryGiven(u.query, "sources") {
        AssignTwice(u.query, "sources", Many([]), Many([Some(id)]));
        assert [] + [Some(id)] == [Some(id)];
        u.query := Assign(u.query, "sources", Many([]));
      }
      match Lookup(u.query, "sources")
      case Some(Many(vs)) =>
        u.query := Assign(u.query, "sources", Many(vs + [Some(id)]));
        r := Ok(u);
      case _ =>
        r := Err(StringAppend);
    }
  }
}
