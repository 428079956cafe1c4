/**
 * The output-area enrichment stage (`generate_oas` / `GenerateOAs`) and the
 * single-postcode lookup `get_oa_lsoa_details`: UK postcodes are matched
 * against the `oa_lookup` table to attach the 2021 output area (`oa21cd`)
 * and lower-layer super output area (`lsoa21cd`, `lsoa21nm`) of each stop.
 */
module AreaCodes {
  import opened Wrappers
  import opened Text
  import opened Json
  import opened PosixPath

  /** A row of `SELECT pcds, oa21cd, lsoa21cd, lsoa21nm FROM oa_lookup`; `pcds` is None when NULL. */
  datatype AreaRow = AreaRow(pcds: Option<string>, oa21cd: Value, lsoa21cd: Value, lsoa21nm: Value)

  /** The three area fields of a stop. */
  datatype AreaInfo = AreaInfo(oa21cd: Value, lsoa21cd: Value, lsoa21nm: Value)

  const NoArea := AreaInfo(Null, Null, Null)

  const AreaKeys: set<string> := {"oa21cd", "lsoa21cd", "lsoa21nm"}

  /** How the batch stage ends. */
  datatype Outcome = NoInput | NoConfig | DbError | Written(path: string, data: map<string, Record>)

  // ---------------------------------------------------------------------------
  // Postcode normalisation
  // ---------------------------------------------------------------------------

  /** `p.replace(' ', '').upper()`: the form under which the batch stage compares postcodes. */
  function LookupKey(p: string): string {
    Upper(RemoveChar(p, ' '))
  }

  /** A key holds no space. */
  lemma LookupKeyNoSpace(p: string)
    ensures ' ' !in LookupKey(p)
  {
    var r := RemoveChar(p, ' ');
    RemoveCharDrops(p, ' ');
    UpperAt(r);
    forall i | 0 <= i < |r| ensures Upper(r)[i] != ' ' {
      assert r[i] in r;
    }
  }

  /** Normalising a normalised postcode changes nothing. */
  lemma LookupKeyIdempotent(p: string)
    ensures LookupKey(LookupKey(p)) == LookupKey(p)
  {
    LookupKeyNoSpace(p);
    RemoveAbsentChar(LookupKey(p), ' ');
    UpperIdempotent(RemoveChar(p, ' '));
  }

  /** Matching ignores spaces: dropping one space from a postcode does not change its key. */
  lemma LookupKeyIgnoresSpace(a: string, b: string)
    ensures LookupKey(a + " " + b) == LookupKey(a + b)
  {
    calc {
      RemoveChar(a + " " + b, ' ');
      { RemoveCharAppend(a + " ", b, ' '); }
      RemoveChar(a + " ", ' ') + RemoveChar(b, ' ');
      { RemoveCharAppend(a, " ", ' '); assert RemoveChar(" ", ' ') == []; }
      RemoveChar(a, ' ') + RemoveChar(b, ' ');
      { RemoveCharAppend(a, b, ' '); }
      RemoveChar(a + b, ' ');
    }
  }

  /** Matching ignores case: upper-casing a postcode first does not change its key. */
  lemma LookupKeyIgnoresCase(p: string)
    ensures LookupKey(Upper(p)) == LookupKey(p)
  {
    UpperRemoveSpaceCommute(p);
    UpperIdempotent(RemoveChar(p, ' '));
  }

  /**
   * The canonical form used by the single lookup: the key with one space put
   * back before the three-character inward code; a key shorter than three
   * characters is used as it is.
   */
  function Canon(p: string): (c: string)
    ensures |c| == if |LookupKey(p)| >= 3 then |LookupKey(p)| + 1 else |LookupKey(p)|
  {
    var t := LookupKey(p);
    if |t| >= 3 then t[..|t| - 3] + " " + t[|t| - 3..] else t
  }

  /** A string without spaces, split in two with a space between the parts. */
  lemma SpacedShape(front: string, back: string)
    requires ' ' !in front && ' ' !in back
    ensures RemoveChar(front + " " + back, ' ') == front + back
    ensures var c := front + " " + back;
            forall i :: 0 <= i < |c| && i != |front| ==> c[i] != ' '
  {
    calc {
      RemoveChar(front + " " + back, ' ');
      { RemoveCharAppend(front + " ", back, ' '); }
      RemoveChar(front + " ", ' ') + RemoveChar(back, ' ');
      { RemoveCharAppend(front, " ", ' '); assert RemoveChar(" ", ' ') == []; }
      RemoveChar(front, ' ') + RemoveChar(back, ' ');
      { RemoveAbsentChar(front, ' '); RemoveAbsentChar(back, ' '); }
      front + back;
    }
    var c := front + " " + back;
    forall i | 0 <= i < |c| && i != |front| ensures c[i] != ' ' {
      if i < |front| {
        assert c[i] == front[i] && front[i] in front;
      } else {
        assert c[i] == back[i - |front| - 1] && back[i - |front| - 1] in back;
      }
    }
  }

  /**
   * Removing the space from the canonical form gives back the key; a key of
   * three characters or more gets exactly one space, four characters from
   * the end, and a shorter one none.
   */
  lemma CanonShape(p: string)
    ensures RemoveChar(Canon(p), ' ') == LookupKey(p)
    ensures |LookupKey(p)| < 3 ==> ' ' !in Canon(p)
    ensures |LookupKey(p)| >= 3 ==>
              var c := Canon(p);
              c[|c| - 4] == ' ' && forall i :: 0 <= i < |c| && i != |c| - 4 ==> c[i] != ' '
  {
    var t := LookupKey(p);
    LookupKeyNoSpace(p);
    if |t| >= 3 {
      var front, back := t[..|t| - 3], t[|t| - 3..];
      assert ' ' !in front && ' ' !in back by {
        forall i | 0 <= i < |t| ensures t[i] != ' ' { assert t[i] in t; }
      }
      SpacedShape(front, back);
      assert front + back == t;
    } else {
      RemoveAbsentChar(t, ' ');
    }
  }

  /** The canonical form has the same key as the postcode it came from. */
  lemma CanonKey(p: string)
    ensures LookupKey(Canon(p)) == LookupKey(p)
  {
    CanonShape(p);
    UpperIdempotent(RemoveChar(p, ' '));
  }

  /** Canonicalising twice is canonicalising once. */
  lemma CanonIdempotent(p: string)
    ensures Canon(Canon(p)) == Canon(p)
  {
    CanonKey(p);
  }

  /**
   * The two normalisations agree: two postcodes have the same canonical form
   * exactly when they have the same key.
   */
  lemma CanonSameKey(a: string, b: string)
    ensures Canon(a) == Canon(b) <==> LookupKey(a) == LookupKey(b)
  {
    CanonKey(a);
    CanonKey(b);
  }

  // ---------------------------------------------------------------------------
  // The batch stage
  // ---------------------------------------------------------------------------

  /** `if row['pcds']`: rows with a NULL or empty postcode are skipped. */
  predicate Keyed(row: AreaRow) {
    row.pcds.Some? && row.pcds.value != ""
  }

  function InfoOf(row: AreaRow): AreaInfo {
    AreaInfo(row.oa21cd, row.lsoa21cd, row.lsoa21nm)
  }

  /**
   * The dictionary built from the rows in order, each keyed row under
   * `key(pcds)`; a later row with the same key overwrites an earlier one.
   */
  function KeyedMap(rows: seq<AreaRow>, key: string -> string): map<string, AreaInfo> {
    if rows == [] then map[]
    else
      var m := KeyedMap(rows[..|rows| - 1], key);
      var row := rows[|rows| - 1];
      if Keyed(row) then m[key(row.pcds.value) := InfoOf(row)] else m
  }

  /** The lookup dictionary of the batch stage. */
  function LookupMap(rows: seq<AreaRow>): map<string, AreaInfo> {
    KeyedMap(rows, LookupKey)
  }

  /** The dictionary holds the key of every keyed row, and nothing else. */
  lemma {:induction false} KeyedMapKeys(rows: seq<AreaRow>, key: string -> string)
    ensures KeyedMap(rows, key).Keys == set i | 0 <= i < |rows| && Keyed(rows[i]) :: key(rows[i].pcds.value)
  {
    if rows != [] {
      var init := rows[..|rows| - 1];
      KeyedMapKeys(init, key);
      var last := |rows| - 1;
      var S := set i | 0 <= i < |rows| && Keyed(rows[i]) :: key(rows[i].pcds.value);
      var T := set i | 0 <= i < |init| && Keyed(init[i]) :: key(init[i].pcds.value);
      var L := if Keyed(rows[last]) then {key(rows[last].pcds.value)} else {};
      forall k | k in S ensures k in T + L {
        var i :| 0 <= i < |rows| && Keyed(rows[i]) && key(rows[i].pcds.value) == k;
        if i < last {
          assert init[i] == rows[i];
        }
      }
      forall k | k in T ensures k in S {
        var i :| 0 <= i < |init| && Keyed(init[i]) && key(init[i].pcds.value) == k;
        assert init[i] == rows[i];
      }
      assert S == T + L;
    }
  }

  /** A key maps to the area fields of the last keyed row carrying it. */
  lemma {:induction false} KeyedMapLastWins(rows: seq<AreaRow>, key: string -> string, i: nat)
    requires i < |rows| && Keyed(rows[i])
    requires forall j :: i < j < |rows| && Keyed(rows[j]) ==> key(rows[j].pcds.value) != key(rows[i].pcds.value)
    ensures key(rows[i].pcds.value) in KeyedMap(rows, key)
    ensures KeyedMap(rows, key)[key(rows[i].pcds.value)] == InfoOf(rows[i])
  {
    if i < |rows| - 1 {
      KeyedMapLastWins(rows[..|rows| - 1], key, i);
    }
  }

  /** `for row in oa_lookup_results`: the dictionary-filling loop. */
  method BuildLookupMap(rows: seq<AreaRow>) returns (m: map<string, AreaInfo>)
    ensures m == LookupMap(rows)
  {
    m := map[];
    var i := 0;
    while i < |rows|
      invariant i <= |rows| && m == LookupMap(rows[..i])
    {
      var row := rows[i];
      if row.pcds.Some? && row.pcds.value != "" {
        m := m[LookupKey(row.pcds.value) := InfoOf(row)];
      }
      assert rows[..i + 1][..i] == rows[..i];
      i := i + 1;
    }
    assert rows[..|rows|] == rows;
  }

  /** `str(postcode)` for the postcode values a stop record can hold; a float is not modelled. */
  function PostcodeText(v: Value): Option<string> {
    match v
    case Str(s) => Some(s)
    case Int(i) => Some(IntToString(i))
    case _ => None
  }

  /** The area fields a stop receives: those of its postcode's key on a hit, all null otherwise. */
  function StopArea(rec: Record, lookup: map<string, AreaInfo>): (info: AreaInfo)
    ensures info != NoArea ==> "postcode" in rec && Truthy(rec["postcode"])
  {
    if "postcode" in rec && Truthy(rec["postcode"]) && PostcodeText(rec["postcode"]).Some?
       && LookupKey(PostcodeText(rec["postcode"]).value) in lookup
    then lookup[LookupKey(PostcodeText(rec["postcode"]).value)]
    else NoArea
  }

  /** A stop record with the three area fields set. */
  function WithArea(rec: Record, info: AreaInfo): Record {
    rec["oa21cd" := info.oa21cd]["lsoa21cd" := info.lsoa21cd]["lsoa21nm" := info.lsoa21nm]
  }

  /** One stop enriched. */
  function AreaEnricher(lookup: map<string, AreaInfo>): Record -> Record {
    rec => WithArea(rec, StopArea(rec, lookup))
  }

  /** Every record of a map transformed by `f`. */
  function MapRecords(data: map<string, Record>, f: Record -> Record): map<string, Record> {
    map id | id in data :: f(data[id])
  }

  /** Every stop enriched. */
  function Enrich(data: map<string, Record>, lookup: map<string, AreaInfo>): map<string, Record> {
    MapRecords(data, AreaEnricher(lookup))
  }

  /**
   * Enrichment keeps the set of stops and every field of every stop, and
   * gives each stop the three area fields: those of its postcode's entry in
   * the dictionary, or three nulls.
   */
  lemma EnrichFields(data: map<string, Record>, lookup: map<string, AreaInfo>, id: string)
    requires id in data
    ensures Enrich(data, lookup).Keys == data.Keys
    ensures var r := Enrich(data, lookup)[id];
            && r.Keys == data[id].Keys + AreaKeys
            && (forall f :: f in data[id] && f !in AreaKeys ==> r[f] == data[id][f])
            && r["oa21cd"] == StopArea(data[id], lookup).oa21cd
            && r["lsoa21cd"] == StopArea(data[id], lookup).lsoa21cd
            && r["lsoa21nm"] == StopArea(data[id], lookup).lsoa21nm
  {
  }

  /** `for stop_id, stop_details in loaded_data.items()`: each record is updated in turn. */
  method EnrichStops(data: map<string, Record>, lookup: map<string, AreaInfo>) returns (out: map<string, Record>)
    ensures out == Enrich(data, lookup)
  {
    ghost var f := AreaEnricher(lookup);
    out := data;
    var todo := data.Keys;
    while todo != {}
      invariant todo <= data.Keys && out.Keys == data.Keys
      invariant forall id :: id in out ==> out[id] == if id in todo then data[id] else f(data[id])
      decreases |todo|
    {
      var id :| id in todo;
      var updated := UpdateStop(out[id], lookup);
      out := out[id := updated];
      todo := todo - {id};
    }
    AllMapped(data, out, f);
  }

  lemma AllMapped(data: map<string, Record>, out: map<string, Record>, f: Record -> Record)
    requires out.Keys == data.Keys
    requires forall id :: id in out ==> out[id] == f(data[id])
    ensures out == MapRecords(data, f)
  {
  }

  /** The body of the loop: one stop's record updated with its area fields. */
  method UpdateStop(rec: Record, lookup: map<string, AreaInfo>) returns (updated: Record)
    ensures updated == AreaEnricher(lookup)(rec)
  {
    var info := FindArea(rec, lookup);
    updated := rec["oa21cd" := info.oa21cd]["lsoa21cd" := info.lsoa21cd]["lsoa21nm" := info.lsoa21nm];
  }

  /** The area of one stop's postcode, or nothing. */
  method FindArea(rec: Record, lookup: map<string, AreaInfo>) returns (info: AreaInfo)
    ensures info == StopArea(rec, lookup)
  {
    info := NoArea;
    if "postcode" in rec && Truthy(rec["postcode"]) {
      var text := PostcodeText(rec["postcode"]);
      if text.Some? && LookupKey(text.value) in lookup {
        info := lookup[LookupKey(text.value)];
      }
    }
  }

  /**
   * A stop whose postcode has the key of a keyed row, the last such row,
   * receives that row's area fields.
   */
  lemma EnrichFromRow(data: map<string, Record>, rows: seq<AreaRow>, id: string, p: string, i: nat)
    requires id in data && "postcode" in data[id] && data[id]["postcode"] == Str(p) && p != ""
    requires i < |rows| && Keyed(rows[i]) && LookupKey(rows[i].pcds.value) == LookupKey(p)
    requires forall j :: i < j < |rows| && Keyed(rows[j]) ==> LookupKey(rows[j].pcds.value) != LookupKey(p)
    ensures var r := Enrich(data, LookupMap(rows))[id];
            r["oa21cd"] == rows[i].oa21cd && r["lsoa21cd"] == rows[i].lsoa21cd && r["lsoa21nm"] == rows[i].lsoa21nm
  {
    KeyedMapLastWins(rows, LookupKey, i);
  }

  /** A stop whose postcode is missing, empty, or matches no keyed row gets three nulls. */
  lemma EnrichMiss(data: map<string, Record>, rows: seq<AreaRow>, id: string)
    requires id in data
    requires "postcode" in data[id] && data[id]["postcode"].Str? ==>
               forall i :: 0 <= i < |rows| && Keyed(rows[i]) ==> LookupKey(rows[i].pcds.value) != LookupKey(data[id]["postcode"].s)
    requires "postcode" in data[id] ==> data[id]["postcode"].Str? || data[id]["postcode"].Null?
    ensures var r := Enrich(data, LookupMap(rows))[id];
            r["oa21cd"] == Null && r["lsoa21cd"] == Null && r["lsoa21nm"] == Null
  {
    KeyedMapKeys(rows, LookupKey);
  }

  /**
   * `generate_oas`: an input file or config that cannot be loaded ends the
   * stage without output, as does a database error; otherwise every stop is
   * enriched and the result is written next to the input file.
   */
  method GenerateOas(input: Option<map<string, Record>>, configLoaded: bool, table: Option<seq<AreaRow>>,
                     inputFile: string, outputName: string)
    returns (out: Outcome)
    ensures input.None? ==> out == NoInput
    ensures input.Some? && !configLoaded ==> out == NoConfig
    ensures input.Some? && configLoaded && table.None? ==> out == DbError
    ensures input.Some? && configLoaded && table.Some? ==>
              out == Written(OutputBeside(inputFile, outputName), Enrich(input.value, LookupMap(table.value)))
  {
    if input.None? {
      return NoInput;
    }
    if !configLoaded {
      return NoConfig;
    }
    if table.None? {
      return DbError;
    }
    var lookup := BuildLookupMap(table.value);
    var data := EnrichStops(input.value, lookup);
    out := Written(OutputBeside(inputFile, outputName), data);
  }

  // ---------------------------------------------------------------------------
  // The single-postcode lookup
  // ---------------------------------------------------------------------------

  /** The position of the first row whose `pcds` equals `key`, or `|rows|` when none does. */
  function FirstWithPcds(rows: seq<AreaRow>, key: string): (k: nat)
    ensures k <= |rows|
    ensures forall j :: 0 <= j < k ==> rows[j].pcds != Some(key)
    ensures k < |rows| ==> rows[k].pcds == Some(key)
  {
    if rows == [] || rows[0].pcds == Some(key) then 0 else 1 + FirstWithPcds(rows[1..], key)
  }

  /**
   * `get_oa_lsoa_details(postcode)`: the area fields of the first row whose
   * `pcds` is the canonical postcode, and three nulls when the config or the
   * connection fails, the postcode is None (the exception handler), or no
   * row matches.
   */
  function GetOaLsoaDetails(postcode: Option<string>, configLoaded: bool, table: Option<seq<AreaRow>>): (info: AreaInfo)
    ensures !configLoaded || table.None? || postcode.None? ==> info == NoArea
    ensures configLoaded && table.Some? && postcode.Some? ==>
              var k := FirstWithPcds(table.value, Canon(postcode.value));
              info == if k < |table.value| then InfoOf(table.value[k]) else NoArea
  {
    if !configLoaded || table.None? || postcode.None? then NoArea
    else
      var k := FirstWithPcds(table.value, Canon(postcode.value));
      if k < |table.value| then InfoOf(table.value[k]) else NoArea
  }

  /**
   * On a table whose postcodes are stored in canonical form, a row found by
   * the single lookup carries the same key as the postcode, so the batch
   * stage compares the same two postcodes equal.
   */
  lemma SingleLookupMatchesKey(p: string, rows: seq<AreaRow>)
    requires FirstWithPcds(rows, Canon(p)) < |rows|
    ensures var row := rows[FirstWithPcds(rows, Canon(p))];
            row.pcds.Some? && LookupKey(row.pcds.value) == LookupKey(p)
  {
    CanonKey(p);
  }
}
