/**
 * The route-map picker (map_gui_loader.py): shape metadata grouped by
 * route short name, the sorted route list, and the lookup from a chosen
 * trip label to the map file to open.
 */
module MapGui {
  import opened Wrappers
  import opened Text
  import opened MappingJsons

  // ---------------------------------------------------------------------------
  // Grouping the metadata
  // ---------------------------------------------------------------------------

  /** A field of a metadata entry as read from the file. */
  datatype Field = Missing | JsonNull | Present(s: string)

  /** A metadata entry: `route_short_name` (a string, or absent) and `trip_headsign`. */
  datatype MetaEntry = MetaEntry(routeShort: Option<string>, headsign: Field)

  /** The group of an entry: its route short name, `??` when absent. */
  function RouteKey(e: MetaEntry): string {
    e.routeShort.GetOr("??")
  }

  /** The head sign as formatted into a label: `Unknown` when absent, `None` when null. */
  function HeadsignText(f: Field): string {
    match f
    case Missing => "Unknown"
    case JsonNull => "None"
    case Present(s) => s
  }

  /** The dropdown label of a shape: head sign, then the shape id in parentheses. */
  function Label(shapeId: string, e: MetaEntry): string {
    HeadsignText(e.headsign) + " (" + shapeId + ")"
  }

  function Choice(entry: (string, MetaEntry)): (string, string) {
    (Label(entry.0, entry.1), entry.0)
  }

  /** The (label, shape id) choices of the entries in group `key`, in file order. */
  function GroupOf(metadata: seq<(string, MetaEntry)>, key: string): seq<(string, string)> {
    if metadata == [] then []
    else
      var last := metadata[|metadata| - 1];
      GroupOf(metadata[..|metadata| - 1], key) + (if RouteKey(last.1) == key then [Choice(last)] else [])
  }

  /** `route_map` after the entries `metadata`: each appended to its group's list. */
  function RouteMap(metadata: seq<(string, MetaEntry)>): map<string, seq<(string, string)>> {
    if metadata == [] then map[]
    else
      var prev := RouteMap(metadata[..|metadata| - 1]);
      var last := metadata[|metadata| - 1];
      var key := RouteKey(last.1);
      prev[key := (if key in prev then prev[key] else []) + [Choice(last)]]
  }

  /** The loop that builds `route_map` with `setdefault(...).append`. */
  method BuildRouteMap(metadata: seq<(string, MetaEntry)>) returns (routeMap: map<string, seq<(string, string)>>)
    ensures routeMap == RouteMap(metadata)
  {
    routeMap := map[];
    var i := 0;
    while i < |metadata|
      invariant 0 <= i <= |metadata|
      invariant routeMap == RouteMap(metadata[..i])
    {
      assert metadata[..i + 1][..i] == metadata[..i];
      var (shapeId, info) := metadata[i];
      var routeShort := RouteKey(info);
      var tripLabel := Label(shapeId, info);
      var group := if routeShort in routeMap then routeMap[routeShort] else [];
      routeMap := routeMap[routeShort := group + [(tripLabel, shapeId)]];
      i := i + 1;
    }
    assert metadata[..i] == metadata;
  }

  /**
   * The route map has a group exactly for the keys some entry has, and that
   * group lists the entries with that key, in file order.
   */
  lemma {:induction false} RouteMapGroups(metadata: seq<(string, MetaEntry)>, key: string)
    ensures key in RouteMap(metadata) <==> GroupOf(metadata, key) != []
    ensures key in RouteMap(metadata) ==> RouteMap(metadata)[key] == GroupOf(metadata, key)
  {
    if metadata != [] {
      RouteMapGroups(metadata[..|metadata| - 1], key);
    }
  }

  /** A group holds the choice of an entry iff the entry has that group's key. */
  lemma {:induction false} GroupMembers(metadata: seq<(string, MetaEntry)>, key: string, c: (string, string))
    ensures c in GroupOf(metadata, key) <==>
              exists i :: 0 <= i < |metadata| && RouteKey(metadata[i].1) == key && Choice(metadata[i]) == c
  {
    if metadata != [] {
      var init := metadata[..|metadata| - 1];
      GroupMembers(init, key, c);
      assert forall i :: 0 <= i < |init| ==> init[i] == metadata[i];
    }
  }

  /** Each group has as many choices as there are entries with its key. */
  lemma {:induction false} GroupSize(metadata: seq<(string, MetaEntry)>, key: string)
    ensures |GroupOf(metadata, key)| == |KeyedIndexes(metadata, key)|
  {
    if metadata != [] {
      var n := |metadata| - 1;
      GroupSize(metadata[..n], key);
      var before := KeyedIndexes(metadata[..n], key);
      assert KeyedIndexes(metadata, key) == before + (if RouteKey(metadata[n].1) == key then {n} else {});
      assert n !in before;
    }
  }

  /** The positions of the entries with key `key`. */
  function KeyedIndexes(metadata: seq<(string, MetaEntry)>, key: string): set<nat> {
    set i: nat | i < |metadata| && RouteKey(metadata[i].1) == key
  }

  // ---------------------------------------------------------------------------
  // The route dropdown
  // ---------------------------------------------------------------------------

  /** Python's string order: by code point, a proper prefix first. */
  predicate LexLess(a: string, b: string) {
    if a == [] then b != []
    else b != [] && (a[0] < b[0] || (a[0] == b[0] && LexLess(a[1..], b[1..])))
  }

  lemma LexIrreflexive(a: string)
    ensures !LexLess(a, a)
  {
  }

  lemma {:induction false} LexTransitive(a: string, b: string, c: string)
    requires LexLess(a, b) && LexLess(b, c)
    ensures LexLess(a, c)
  {
    if a != [] && a[0] == b[0] && b[0] == c[0] {
      LexTransitive(a[1..], b[1..], c[1..]);
    }
  }

  lemma {:induction false} LexTotal(a: string, b: string)
    requires a != b
    ensures LexLess(a, b) || LexLess(b, a)
  {
    if a != [] && b != [] && a[0] == b[0] {
      assert a == [a[0]] + a[1..] && b == [b[0]] + b[1..];
      LexTotal(a[1..], b[1..]);
    }
  }

  lemma {:induction false} HasLeast(keys: set<string>)
    requires keys != {}
    ensures exists m :: m in keys && forall k :: k in keys && k != m ==> LexLess(m, k)
    decreases |keys|
  {
    var x :| x in keys;
    var rest := keys - {x};
    if rest == {} {
      assert keys == {x};
    } else {
      HasLeast(rest);
      var m :| m in rest && forall k :: k in rest && k != m ==> LexLess(m, k);
      if LexLess(x, m) {
        forall k | k in keys && k != x
          ensures LexLess(x, k)
        {
          if k != m {
            assert k in rest;
            LexTransitive(x, m, k);
          }
        }
      } else {
        LexTotal(x, m);
        forall k | k in keys && k != m
          ensures LexLess(m, k)
        {
          if k != x {
            assert k in rest;
          }
        }
      }
    }
  }

  /** `sorted(...)` of a set of route keys: each key once, in increasing order. */
  ghost function SortedKeys(keys: set<string>): (r: seq<string>)
    ensures |r| == |keys|
    decreases |keys|
  {
    if keys == {} then []
    else
      HasLeast(keys);
      var m :| m in keys && forall k :: k in keys && k != m ==> LexLess(m, k);
      [m] + SortedKeys(keys - {m})
  }

  /** The sorted keys are exactly the set's members. */
  lemma {:induction false} SortedKeysMembers(keys: set<string>)
    ensures forall k :: k in SortedKeys(keys) <==> k in keys
    decreases |keys|
  {
    if keys != {} {
      var r := SortedKeys(keys);
      assert r[0] in keys && r[1..] == SortedKeys(keys - {r[0]});
      SortedKeysMembers(keys - {r[0]});
      assert r == [r[0]] + r[1..];
    }
  }

  /** The sorted keys are in strictly increasing order. */
  lemma {:induction false} SortedKeysSorted(keys: set<string>)
    ensures forall i, j :: 0 <= i < j < |SortedKeys(keys)| ==> LexLess(SortedKeys(keys)[i], SortedKeys(keys)[j])
    decreases |keys|
  {
    if keys != {} {
      var r := SortedKeys(keys);
      var m := r[0];
      var rest := r[1..];
      assert (forall k :: k in keys && k != m ==> LexLess(m, k)) && rest == SortedKeys(keys - {m});
      SortedKeysSorted(keys - {m});
      SortedKeysMembers(keys - {m});
      forall i, j | 0 <= i < j < |r|
        ensures LexLess(r[i], r[j])
      {
        if i == 0 {
          assert r[j] == rest[j - 1] && r[j] in keys - {m};
        } else {
          assert r[i] == rest[i - 1] && r[j] == rest[j - 1];
        }
      }
    }
  }

  /** The route dropdown's values: the route map's keys in sorted order. */
  ghost function RouteChoices(metadata: seq<(string, MetaEntry)>): seq<string> {
    SortedKeys(RouteMap(metadata).Keys)
  }

  /** The route dropdown offers exactly the route keys of the entries, each once, sorted. */
  lemma RouteChoicesAreKeys(metadata: seq<(string, MetaEntry)>, key: string)
    ensures key in RouteChoices(metadata) <==> exists i :: 0 <= i < |metadata| && RouteKey(metadata[i].1) == key
  {
    SortedKeysMembers(RouteMap(metadata).Keys);
    RouteMapGroups(metadata, key);
    if key in RouteMap(metadata) {
      var c := GroupOf(metadata, key)[0];
      GroupMembers(metadata, key, c);
    } else {
      forall i | 0 <= i < |metadata| && RouteKey(metadata[i].1) == key
        ensures false
      {
        GroupMembers(metadata, key, Choice(metadata[i]));
      }
    }
  }

  // ---------------------------------------------------------------------------
  // Opening a map
  // ---------------------------------------------------------------------------

  /** The shape id of the first choice with the given label. */
  function FirstMatch(group: seq<(string, string)>, tripLabel: string): Option<string> {
    if group == [] then None
    else if group[0].0 == tripLabel then Some(group[0].1)
    else FirstMatch(group[1..], tripLabel)
  }

  /** The label search of `open_map`, stopping at the first match. */
  method FindShape(group: seq<(string, string)>, tripLabel: string) returns (shapeId: Option<string>)
    ensures shapeId == FirstMatch(group, tripLabel)
  {
    shapeId := None;
    var i := 0;
    while i < |group|
      invariant 0 <= i <= |group|
      invariant FirstMatch(group, tripLabel) == FirstMatch(group[i..], tripLabel)
    {
      assert group[i..][1..] == group[i + 1..];
      if group[i].0 == tripLabel {
        shapeId := Some(group[i].1);
        break;
      }
      i := i + 1;
    }
  }

  /**
   * The search finds the shape of the first choice with the label, and
   * nothing when no choice has it.
   */
  lemma {:induction false} FirstMatchFacts(group: seq<(string, string)>, tripLabel: string)
    ensures FirstMatch(group, tripLabel).None? <==> forall i :: 0 <= i < |group| ==> group[i].0 != tripLabel
    ensures FirstMatch(group, tripLabel).Some? ==>
              exists i :: 0 <= i < |group| && group[i] == (tripLabel, FirstMatch(group, tripLabel).value)
                && forall j :: 0 <= j < i ==> group[j].0 != tripLabel
  {
    if group != [] && group[0].0 != tripLabel {
      FirstMatchFacts(group[1..], tripLabel);
      if FirstMatch(group, tripLabel).Some? {
        var i :| 0 <= i < |group| - 1 && group[1..][i] == (tripLabel, FirstMatch(group, tripLabel).value)
                 && forall j :: 0 <= j < i ==> group[1..][j].0 != tripLabel;
        assert group[i + 1] == (tripLabel, FirstMatch(group, tripLabel).value);
      }
    }
  }

  /**
   * The map file of a route and shape; only `:` of the shape id is replaced
   * here, so a shape id without `:` is used as it is.
   */
  function MapPath(route: string, shapeId: string): (path: string)
    ensures ':' !in shapeId ==> path == "maps/map_" + route + "_" + shapeId + ".html"
  {
    "maps/map_" + route + "_" + ReplaceChar(shapeId, ':', '_') + ".html"
  }

  /** For the shape keys the metadata generator writes, the replacement changes nothing. */
  lemma MapPathOfSafeKey(route: string, shapeId: string)
    ensures MapPath(route, SafeShape(shapeId)) == "maps/map_" + route + "_" + SafeShape(shapeId) + ".html"
  {
    ReplaceAbsentChar(SafeShape(shapeId), ':', '_');
  }

  /** What `open_map` ends with. */
  datatype OpenResult = SelectionError | NotFound | FileMissing(path: string) | Opened(path: string)

  /**
   * `open_map`: both selections are needed; the label is looked up in the
   * route's group, an empty shape id counting as not found; the map opens
   * when its file exists.
   */
  function OpenMapSpec(routeMap: map<string, seq<(string, string)>>, route: string, tripLabel: string,
                       mapExists: string -> bool): OpenResult
  {
    if route == "" || tripLabel == "" then SelectionError
    else
      var found := FirstMatch(if route in routeMap then routeMap[route] else [], tripLabel);
      if found.None? || found.value == "" then NotFound
      else
        var path := MapPath(route, found.value);
        if mapExists(path) then Opened(path) else FileMissing(path)
  }

  method OpenMap(routeMap: map<string, seq<(string, string)>>, route: string, tripLabel: string,
                 mapExists: string -> bool) returns (r: OpenResult)
    ensures r == OpenMapSpec(routeMap, route, tripLabel, mapExists)
  {
    if route == "" || tripLabel == "" {
      return SelectionError;
    }
    var group := if route in routeMap then routeMap[route] else [];
    var shapeId := FindShape(group, tripLabel);
    if shapeId.None? || shapeId.value == "" {
      return NotFound;
    }
    var htmlPath := MapPath(route, shapeId.value);
    if !mapExists(htmlPath) {
      return FileMissing(htmlPath);
    }
    r := Opened(htmlPath);
  }

  /**
   * Choosing the label of a metadata entry whose label no earlier entry of
   * its group shares opens (or looks for) the map of that entry's shape.
   */
  lemma OpenChosenEntry(metadata: seq<(string, MetaEntry)>, i: nat, mapExists: string -> bool)
    requires i < |metadata| && metadata[i].0 != ""
    requires var key := RouteKey(metadata[i].1);
             key != "" && forall j :: 0 <= j < i && RouteKey(metadata[j].1) == key ==> Label(metadata[j].0, metadata[j].1) != Label(metadata[i].0, metadata[i].1)
    ensures var r := OpenMapSpec(RouteMap(metadata), RouteKey(metadata[i].1), Label(metadata[i].0, metadata[i].1), mapExists);
            r == Opened(MapPath(RouteKey(metadata[i].1), metadata[i].0)) || r == FileMissing(MapPath(RouteKey(metadata[i].1), metadata[i].0))
  {
    var key := RouteKey(metadata[i].1);
    var tripLabel := Label(metadata[i].0, metadata[i].1);
    FirstInGroup(metadata, i, key, tripLabel);
    RouteMapGroups(metadata, key);
  }

  /** The first choice with the entry's label in its group is the entry's own. */
  lemma {:induction false} FirstInGroup(metadata: seq<(string, MetaEntry)>, i: nat, key: string, tripLabel: string)
    requires i < |metadata| && RouteKey(metadata[i].1) == key && Label(metadata[i].0, metadata[i].1) == tripLabel
    requires forall j :: 0 <= j < i && RouteKey(metadata[j].1) == key ==> Label(metadata[j].0, metadata[j].1) != tripLabel
    ensures FirstMatch(GroupOf(metadata, key), tripLabel) == Some(metadata[i].0)
  {
    var n := |metadata| - 1;
    if i < n {
      FirstInGroup(metadata[..n], i, key, tripLabel);
      FirstMatchAppend(GroupOf(metadata[..n], key), if RouteKey(metadata[n].1) == key then [Choice(metadata[n])] else [], tripLabel);
    } else {
      NoMatchBefore(metadata[..n], key, tripLabel);
      FirstMatchAppend(GroupOf(metadata[..n], key), [Choice(metadata[n])], tripLabel);
    }
  }

  lemma {:induction false} NoMatchBefore(metadata: seq<(string, MetaEntry)>, key: string, tripLabel: string)
    requires forall j :: 0 <= j < |metadata| && RouteKey(metadata[j].1) == key ==> Label(metadata[j].0, metadata[j].1) != tripLabel
    ensures FirstMatch(GroupOf(metadata, key), tripLabel) == None
  {
    if metadata != [] {
      var n := |metadata| - 1;
      NoMatchBefore(metadata[..n], key, tripLabel);
      FirstMatchAppend(GroupOf(metadata[..n], key), if RouteKey(metadata[n].1) == key then [Choice(metadata[n])] else [], tripLabel);
    }
  }

  lemma {:induction false} FirstMatchAppend(a: seq<(string, string)>, b: seq<(string, string)>, tripLabel: string)
    ensures FirstMatch(a + b, tripLabel) == if FirstMatch(a, tripLabel).Some? then FirstMatch(a, tripLabel) else FirstMatch(b, tripLabel)
  {
    if a != [] {
      assert (a + b)[1..] == a[1..] + b;
      FirstMatchAppend(a[1..], b, tripLabel);
    } else {
      assert a + b == b;
    }
  }
}
