/** The geometry block of both normalisers: the `(lng, lat)` pairs of a location's
    shape, collected link by link and point by point. */
module Geometry {
  import opened Wrappers
  import opened Json

  /** A `(lng, lat)` pair; a component the point lacks is null. */
  type Point = (J, J)

  /** `(point.get('lng'), point.get('lat'))`. */
  function PointOf(p: J): Py<Point> {
    var lng :- Get(p, "lng", JNull);
    var lat :- Get(p, "lat", JNull);
    Ok((lng, lat))
  }

  /** The inner loop, `for point in link['points']`. Iterating a dict visits its keys and
      iterating a string its characters; both are strings, which have no `get`, so either
      container fails unless it is empty, whatever order the keys come in. */
  function PointsIn(v: J): Py<seq<Point>> {
    match v
    case JArr(ps) => MapAll(PointOf, ps)
    case JStr(s) => MapAll(PointOf, Chars(s))
    case JObj(m) => if |m| == 0 then Ok([]) else Err(AttributeError)
    case _ => Err(TypeError)
  }

  /** The points one link contributes: none unless `'points' in link`. */
  function LinkCoords(link: J): Py<seq<Point>> {
    var hasPoints :- Contains(link, "points");
    if !hasPoints then Ok([])
    else
      var points :- Index(link, "points");
      PointsIn(points)
  }

  /** The outer loop over a list of links: every link's points, in link order. */
  function LinksCoords(links: seq<J>): Py<seq<Point>> {
    var parts :- MapAll(LinkCoords, links);
    Ok(Flatten(parts))
  }

  /** `for link in location['shape']['links']`. A string's characters never contain
      "points", so they add nothing; a dict's keys are strings, and one that contains
      "points" makes `link['points']` index a string, whatever order the keys come in. */
  function CoordsIn(v: J): Py<seq<Point>> {
    match v
    case JArr(links) => LinksCoords(links)
    case JStr(s) => LinksCoords(Chars(s))
    case JObj(m) => if exists k | k in m :: IsSubstring("points", k) then Err(TypeError) else Ok([])
    case _ => Err(TypeError)
  }

  /** The location has a dict `shape` holding a `links` key. */
  predicate HasLinks(location: J) {
    && location.JObj?
    && "shape" in location.fields
    && location.fields["shape"].JObj?
    && "links" in location.fields["shape"].fields
  }

  /** The geometry of a record: `None` when the record gets no geometry field. */
  function GeometryOf(location: J): (r: Py<Option<seq<Point>>>)
    ensures r.Ok? ==> (r.value.Some? <==> HasLinks(location))
    ensures !location.JObj? && !location.JArr? && !location.JStr? ==> r == Err(TypeError)
  {
    var hasShape :- Contains(location, "shape");
    if !hasShape then Ok(None)
    else
      var shape :- Index(location, "shape");
      var hasLinks :- Contains(shape, "links");
      if !hasLinks then Ok(None)
      else
        var links :- Index(shape, "links");
        var coords :- CoordsIn(links);
        Ok(Some(coords))
  }

  // Which locations the geometry block accepts without raising, stated
  // declaratively, value kind by value kind.

  /** Asking `key in x` is possible and, when it holds, `x[key]` exists and satisfies `inner`. */
  predicate KeyConforms(x: J, key: string, inner: J -> bool) {
    match x
    case JObj(m) => key in m ==> inner(m[key])
    case JArr(xs) => JStr(key) !in xs
    case JStr(s) => !IsSubstring(key, s)
    case _ => false
  }

  predicate PointsConform(v: J) {
    match v
    case JArr(ps) => forall i :: 0 <= i < |ps| ==> ps[i].JObj?
    case JStr(s) => s == []
    case JObj(m) => |m| == 0
    case _ => false
  }

  predicate LinkConforms(link: J) {
    KeyConforms(link, "points", PointsConform)
  }

  predicate LinksConform(v: J) {
    match v
    case JArr(links) => forall i :: 0 <= i < |links| ==> LinkConforms(links[i])
    case JStr(_) => true
    case JObj(m) => forall k | k in m :: !IsSubstring("points", k)
    case _ => false
  }

  predicate ShapeConforms(shape: J) {
    KeyConforms(shape, "links", LinksConform)
  }

  predicate LocationConforms(location: J) {
    KeyConforms(location, "shape", ShapeConforms)
  }

  lemma PointsInSucceeds(v: J)
    ensures PointsIn(v).Ok? <==> PointsConform(v)
  {
    match v
    case JStr(s) =>
      if s != [] {
        assert PointOf(Chars(s)[0]).Err?;
      }
    case _ =>
  }

  lemma LinkCoordsSucceeds(link: J)
    ensures LinkCoords(link).Ok? <==> LinkConforms(link)
  {
    match link
    case JObj(m) =>
      if "points" in m {
        PointsInSucceeds(m["points"]);
      }
    case _ =>
  }

  lemma CoordsInSucceeds(v: J)
    ensures CoordsIn(v).Ok? <==> LinksConform(v)
  {
    match v
    case JArr(links) =>
      forall i | 0 <= i < |links| {
        LinkCoordsSucceeds(links[i]);
      }
    case JStr(s) =>
      forall i | 0 <= i < |s| ensures LinkCoords(Chars(s)[i]).Ok? {
        assert !IsSubstring("points", [s[i]]);
      }
    case _ =>
  }

  /** The geometry block raises exactly on the locations `LocationConforms` rules out. */
  lemma GeometrySucceeds(location: J)
    ensures GeometryOf(location).Ok? <==> LocationConforms(location)
  {
    match location
    case JObj(m) =>
      if "shape" in m {
        match m["shape"]
        case JObj(sm) =>
          if "links" in sm {
            CoordsInSucceeds(sm["links"]);
          }
        case _ =>
      }
    case _ =>
  }

  // The order of the pairs, stated against a reference definition.

  /** A field of a point, or null when the point is not a dict or lacks it. */
  function PointField(p: J, key: string): J {
    if p.JObj? then FieldOr(p.fields, key, JNull) else JNull
  }

  /** The pairs a dict link holds under `points`, in point order. */
  function LinkPairs(link: J): seq<Point> {
    if !link.JObj? || "points" !in link.fields || !link.fields["points"].JArr? then []
    else
      var ps := link.fields["points"].items;
      seq(|ps|, j requires 0 <= j < |ps| => (PointField(ps[j], "lng"), PointField(ps[j], "lat")))
  }

  /** Links as the provider documents them: dicts whose `points`, when present, is a list of dicts. */
  predicate DocumentedLinks(links: seq<J>) {
    forall i :: 0 <= i < |links| ==> DocumentedLink(links[i])
  }

  predicate DocumentedLink(link: J) {
    && link.JObj?
    && ("points" in link.fields ==>
          && link.fields["points"].JArr?
          && forall j :: 0 <= j < |link.fields["points"].items| ==> link.fields["points"].items[j].JObj?)
  }

  /** On documented links the geometry is the concatenation, in link order, of each
      link's points in point order; a link without `points` adds nothing. */
  lemma DocumentedGeometry(links: seq<J>)
    requires DocumentedLinks(links)
    ensures LinksCoords(links) == Ok(Flatten(seq(|links|, i requires 0 <= i < |links| => LinkPairs(links[i]))))
    ensures |LinksCoords(links).value| == TotalLength(seq(|links|, i requires 0 <= i < |links| => LinkPairs(links[i])))
  {
    var pairs := seq(|links|, i requires 0 <= i < |links| => LinkPairs(links[i]));
    forall i | 0 <= i < |links| ensures LinkCoords(links[i]) == Ok(pairs[i]) {
      var m := links[i].fields;
      if "points" in m {
        var ps := m["points"].items;
        var r := MapAll(PointOf, ps);
        assert r.Ok?;
        assert r.value == pairs[i];
      }
    }
    var parts := MapAll(LinkCoords, links);
    assert parts.Ok?;
    assert parts.value == pairs;
    FlattenLength(pairs);
  }

  /** The geometry field of a record whose shape holds a list of documented links is the
      concatenation, in link order, of each link's pairs. */
  lemma DocumentedRecordGeometry(location: J)
    requires HasLinks(location)
    requires location.fields["shape"].fields["links"].JArr?
    requires DocumentedLinks(location.fields["shape"].fields["links"].items)
    ensures var links := location.fields["shape"].fields["links"].items;
            GeometryOf(location) == Ok(Some(Flatten(seq(|links|, i requires 0 <= i < |links| => LinkPairs(links[i])))))
  {
    DocumentedGeometry(location.fields["shape"].fields["links"].items);
  }

  /** Collecting over `a + b` collects over `a`, then over `b`; the first error wins. */
  lemma LinksCoordsAppend(a: seq<J>, b: seq<J>)
    ensures LinksCoords(a + b) == (match LinksCoords(a)
                                   case Err(e) => Err(e)
                                   case Ok(x) =>
                                     match LinksCoords(b)
                                     case Err(e) => Err(e)
                                     case Ok(y) => Ok(x + y))
  {
    MapAllAppend(LinkCoords, a, b);
    match MapAll(LinkCoords, a)
    case Err(e) =>
    case Ok(x) =>
      match MapAll(LinkCoords, b)
      case Err(e) =>
      case Ok(y) => FlattenAppend(x, y);
  }

  /** Dropping a dict link that has no `points` key leaves the geometry, and any error, as it was. */
  lemma LinkWithoutPointsAddsNothing(links: seq<J>, i: int)
    requires 0 <= i < |links|
    requires links[i].JObj? && "points" !in links[i].fields
    ensures LinksCoords(links[..i] + links[i + 1..]) == LinksCoords(links)
  {
    var pre, post := links[..i], links[i + 1..];
    assert links == pre + ([links[i]] + post);
    assert LinksCoords([links[i]]) == Ok([]) by {
      assert LinkCoords(links[i]) == Ok([]);
      var single := [links[i]];
      assert LinkCoords(single[0]) == Ok([]);
      var r := MapAll(LinkCoords, single);
      assert r.value[0] == [];
      assert r.value == [[]];
      assert Flatten(r.value) == [];
    }
    LinksCoordsAppend([links[i]], post);
    LinksCoordsAppend(pre, [links[i]] + post);
    LinksCoordsAppend(pre, post);
    match LinksCoords(pre)
    case Err(e) =>
    case Ok(x) =>
      match LinksCoords(post)
      case Err(e) =>
      case Ok(y) => assert [] + y == y;
  }

  /** A dict key visited as a link: a key containing "points" is indexed like a dict and raises. */
  lemma KeyAsLink(k: string)
    ensures LinkCoords(JStr(k)) == if IsSubstring("points", k) then Err(TypeError) else Ok([])
  {
  }

  /** The closed form for a dict of links agrees with iterating its keys in any order. */
  lemma DictLinksAnyOrder(m: map<string, J>, keys: seq<string>)
    requires forall k :: k in m <==> k in keys
    ensures CoordsIn(JObj(m)) == LinksCoords(seq(|keys|, i requires 0 <= i < |keys| => JStr(keys[i])))
  {
    var xs := seq(|keys|, i requires 0 <= i < |keys| => JStr(keys[i]));
    forall i | 0 <= i < |xs|
      ensures LinkCoords(xs[i]) == if IsSubstring("points", keys[i]) then Err(TypeError) else Ok([])
    {
      KeyAsLink(keys[i]);
    }
    var r := MapAll(LinkCoords, xs);
    if exists k | k in m :: IsSubstring("points", k) {
      var k :| k in m && IsSubstring("points", k);
      var i :| 0 <= i < |keys| && keys[i] == k;
      assert LinkCoords(xs[i]).Err?;
      assert r.Err?;
      var j :| 0 <= j < |xs| && LinkCoords(xs[j]) == Err(r.error);
      assert r.error == TypeError;
      assert CoordsIn(JObj(m)) == Err(TypeError);
    } else {
      forall i | 0 <= i < |xs| ensures LinkCoords(xs[i]) == Ok([]) {
        assert keys[i] in m;
      }
      assert r.Ok?;
      assert forall i | 0 <= i < |r.value| :: r.value[i] == [];
      FlattenOfEmpties(r.value);
      assert CoordsIn(JObj(m)) == Ok([]);
    }
  }
}
