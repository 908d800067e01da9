/** The rows and records `write_to_csv` and `write_to_json` produce for a
    stream of close approaches (write.py). Opening and writing the file is not
    modelled; a CSV row is the sequence of cells `csv.DictWriter` writes, and
    a JSON record is the dictionary handed to `json.dump`. */
module Write {
  import opened Wrappers
  import opened Models

  /** The `fieldnames` of the CSV output, in column order. */
  const Fieldnames: seq<Key> :=
    [DatetimeUtc, DistanceAu, VelocityKmS, Designation, Name, DiameterKm, PotentiallyHazardous]

  /** The column names, as write.py spells them. */
  lemma FieldnamesSpelling()
    ensures seq(|Fieldnames|, i requires 0 <= i < |Fieldnames| => Fieldnames[i].Text())
            == ["datetime_utc", "distance_au", "velocity_km_s", "designation", "name", "diameter_km", "potentially_hazardous"]
  {
  }

  /** `{**a, **n}`: every key of either dictionary, the right one winning on
      a shared key. */
  function Merge(a: map<Key, Field>, n: map<Key, Field>): (r: map<Key, Field>)
    ensures r.Keys == a.Keys + n.Keys
    ensures forall k :: k in n ==> r[k] == n[k]
    ensures forall k :: k in a && k !in n ==> r[k] == a[k]
  {
    a + n
  }

  /** The text a hazardous flag becomes in a CSV row: `"True"` for a true
      flag and `"False"` for a false one or `None`. */
  function HazardText(f: Field): (r: string)
    ensures r == "True" || r == "False"
    ensures f.Flag? ==> (r == "True" <==> f.b)
    ensures f.Null? ==> r == "False"
  {
    if Truthy(f) then "True" else "False"
  }

  /** The dictionary `content` built for one approach: the two serialized
      dictionaries merged, `name` defaulted to `""`, and the hazardous flag
      turned into text. `line.neo.serialize()` on an unlinked approach raises
      `AttributeError`. */
  function CsvContent(approach: CloseApproach): (r: Result<map<Key, Field>, Error>)
    ensures r.Success? <==> approach.neo.Some?
    ensures r.Failure? ==> r.error == AttributeError
    ensures r.Success? ==> r.value.Keys == ApproachKeys + NeoKeys
  {
    match approach.neo
    case None => Failure(AttributeError)
    case Some(neo) =>
      var content := Merge(SerializeApproach(approach), SerializeNeo(neo));
      var named := content[Name := Get(content, Name, Str(""))];
      Success(named[PotentiallyHazardous := Str(HazardText(Get(named, PotentiallyHazardous, Flag(false))))])
  }

  /** `DictWriter.writerow` with its defaults: a key outside `fieldnames`
      raises `ValueError`; a missing key is written as `""`. */
  function WriteRow(content: map<Key, Field>): (r: Result<seq<Field>, Error>)
    ensures r.Failure? <==> exists k :: k in content && k !in Fieldnames
    ensures r.Success? ==> |r.value| == |Fieldnames|
    ensures r.Success? ==> forall i :: 0 <= i < |Fieldnames| && Fieldnames[i] in content ==> r.value[i] == content[Fieldnames[i]]
    ensures r.Success? ==> forall i :: 0 <= i < |Fieldnames| && Fieldnames[i] !in content ==> r.value[i] == Str("")
  {
    if exists k :: k in content && k !in Fieldnames then Failure(ValueError)
    else Success(seq(|Fieldnames|, i requires 0 <= i < |Fieldnames| => Get(content, Fieldnames[i], Str(""))))
  }

  lemma FieldnamesAreTheKeys()
    ensures forall k :: k in ApproachKeys + NeoKeys <==> k in Fieldnames
  {
  }

  /** The cells written for one approach. */
  function CsvRow(approach: CloseApproach): (r: Result<seq<Field>, Error>)
    ensures r.Success? <==> approach.neo.Some?
    ensures r.Failure? ==> r.error == AttributeError
    ensures r.Success? ==> |r.value| == |Fieldnames|
  {
    var content :- CsvContent(approach);
    FieldnamesAreTheKeys();
    WriteRow(content)
  }

  /** `f` applied to each approach of a stream in order, stopping at the
      first exception, as both writers' loops do. */
  function Collect<T>(approaches: seq<CloseApproach>, f: CloseApproach -> Result<T, Error>): (r: Result<seq<T>, Error>)
    ensures r.Success? <==> forall i :: 0 <= i < |approaches| ==> f(approaches[i]).Success?
    ensures r.Success? ==> |r.value| == |approaches|
    ensures r.Success? ==> forall i :: 0 <= i < |approaches| ==> f(approaches[i]) == Success(r.value[i])
    ensures r.Failure? ==> exists i :: 0 <= i < |approaches| && f(approaches[i]) == Failure(r.error)
                                       && forall j :: 0 <= j < i ==> f(approaches[j]).Success?
  {
    if |approaches| == 0 then Success([])
    else
      var first :- f(approaches[0]);
      var rest :- Collect(approaches[1..], f);
      assert forall i :: 1 <= i < |approaches| ==> approaches[i] == approaches[1..][i - 1];
      Success([first] + rest)
  }

  /** The rows written after the header, one per approach in stream order;
      the first unlinked approach raises `AttributeError`. */
  function CsvRows(approaches: seq<CloseApproach>): (r: Result<seq<seq<Field>>, Error>)
    ensures r.Success? <==> forall i :: 0 <= i < |approaches| ==> approaches[i].neo.Some?
    ensures r.Failure? ==> r.error == AttributeError
    ensures r.Success? ==> |r.value| == |approaches|
    ensures r.Success? ==> forall i :: 0 <= i < |approaches| ==> CsvRow(approaches[i]) == Success(r.value[i])
  {
    Collect(approaches, CsvRow)
  }

  /** The approach and NEO dictionaries share no key, so merging them keeps
      every field of both unchanged. */
  lemma MergeKeepsBoth(approach: CloseApproach, neo: NearEarthObject)
    ensures ApproachKeys !! NeoKeys
    ensures var m := Merge(SerializeApproach(approach), SerializeNeo(neo));
            (forall k :: k in ApproachKeys ==> m[k] == SerializeApproach(approach)[k])
            && (forall k :: k in NeoKeys ==> m[k] == SerializeNeo(neo)[k])
  {
  }

  /** A row of a linked approach holds, column by column, the approach's time,
      distance and velocity and its NEO's designation, name, diameter and
      hazardous flag; a missing name or designation is written as `""`, and
      the flag is the text `"True"` exactly when it is `True`, else `"False"`. */
  lemma CsvRowColumns(approach: CloseApproach)
    requires approach.neo.Some?
    ensures var neo := approach.neo.value;
            CsvRow(approach) == Success([
              Stamp(approach.time),
              Real(approach.distance),
              Real(approach.velocity),
              Str(neo.designation.GetOr("")),
              Str(neo.name.GetOr("")),
              DiameterField(neo.diameter),
              Str(if neo.hazardous == Some(true) then "True" else "False")])
  {
    var content := CsvContent(approach).value;
    CsvContentValues(approach);
    WriteRowInColumnOrder(content);
    CsvRowWritesContent(approach);
  }

  lemma CsvRowWritesContent(approach: CloseApproach)
    requires approach.neo.Some?
    ensures CsvRow(approach) == WriteRow(CsvContent(approach).value)
  {
  }

  /** A dictionary with exactly the column keys is written as its values in
      column order. */
  lemma WriteRowInColumnOrder(content: map<Key, Field>)
    requires content.Keys == ApproachKeys + NeoKeys
    ensures WriteRow(content) == Success([content[DatetimeUtc], content[DistanceAu], content[VelocityKmS],
                                          content[Designation], content[Name], content[DiameterKm],
                                          content[PotentiallyHazardous]])
  {
    FieldnamesAreTheKeys();
    assert !exists k :: k in content && k !in Fieldnames;
    var row := WriteRow(content).value;
    var expected := [content[DatetimeUtc], content[DistanceAu], content[VelocityKmS],
                     content[Designation], content[Name], content[DiameterKm], content[PotentiallyHazardous]];
    assert |row| == |expected|;
    assert row[0] == expected[0] && row[1] == expected[1] && row[2] == expected[2];
    assert row[3] == expected[3] && row[4] == expected[4];
    assert row[5] == expected[5] && row[6] == expected[6];
    assert row == expected;
  }

  /** The dictionary `content` of a linked approach, key by key. */
  lemma CsvContentValues(approach: CloseApproach)
    requires approach.neo.Some?
    ensures var neo := approach.neo.value;
            var content := CsvContent(approach).value;
            && content[DatetimeUtc] == Stamp(approach.time)
            && content[DistanceAu] == Real(approach.distance)
            && content[VelocityKmS] == Real(approach.velocity)
            && content[Designation] == Str(neo.designation.GetOr(""))
            && content[Name] == Str(neo.name.GetOr(""))
            && content[DiameterKm] == DiameterField(neo.diameter)
            && content[PotentiallyHazardous] == Str(if neo.hazardous == Some(true) then "True" else "False")
  {
    MergeKeepsBoth(approach, approach.neo.value);
  }

  /** The CSV hazardous column only ever holds `"True"` or `"False"`. */
  lemma CsvHazardIsText(approach: CloseApproach)
    requires approach.neo.Some?
    ensures CsvRow(approach).value[6] == Str("True") || CsvRow(approach).value[6] == Str("False")
  {
  }

  /** The record `write_to_json` builds for one approach: its three fields
      and a nested `neo` dictionary. Each `.get` finds its key, so no default
      is ever used. */
  function JsonRecord(approach: CloseApproach): (r: Result<Field, Error>)
    ensures r.Success? <==> approach.neo.Some?
    ensures r.Failure? ==> r.error == AttributeError
  {
    var fields := SerializeApproach(approach);
    match approach.neo
    case None => Failure(AttributeError)
    case Some(neo) =>
      var neoFields := SerializeNeo(neo);
      Success(Object(map[
        DatetimeUtc := Get(fields, DatetimeUtc, Str("")),
        DistanceAu := Get(fields, DistanceAu, Real(0.0)),
        VelocityKmS := Get(fields, VelocityKmS, Real(0.0)),
        NeoKey := Object(map[
          Designation := Get(neoFields, Designation, Str("")),
          Name := Get(neoFields, Name, Str("")),
          DiameterKm := Get(neoFields, DiameterKm, NotANumber),
          PotentiallyHazardous := Get(neoFields, PotentiallyHazardous, Flag(false))
        ])
      ]))
  }

  /** The list `write_to_json` dumps: one record per approach, in stream
      order; the first unlinked approach raises `AttributeError`. */
  function JsonData(approaches: seq<CloseApproach>): (r: Result<seq<Field>, Error>)
    ensures r.Success? <==> forall i :: 0 <= i < |approaches| ==> approaches[i].neo.Some?
    ensures r.Failure? ==> r.error == AttributeError
    ensures r.Success? ==> |r.value| == |approaches|
    ensures r.Success? ==> forall i :: 0 <= i < |approaches| ==> JsonRecord(approaches[i]) == Success(r.value[i])
  {
    Collect(approaches, JsonRecord)
  }

  /** A JSON record holds the approach's serialized fields at top level and
      the NEO's serialized dictionary, whole, under `neo`; the hazardous flag
      stays a boolean (or `None`) there. */
  lemma JsonRecordShape(approach: CloseApproach)
    requires approach.neo.Some?
    ensures var rec := JsonRecord(approach).value;
            && rec.Object?
            && rec.fields.Keys == ApproachKeys + {NeoKey}
            && (forall k :: k in ApproachKeys ==> rec.fields[k] == SerializeApproach(approach)[k])
            && rec.fields[NeoKey] == Object(SerializeNeo(approach.neo.value))
            && rec.fields[NeoKey].fields[PotentiallyHazardous] == HazardField(approach.neo.value.hazardous)
  {
  }

  /** The two formats agree on hazard: the CSV column reads `"True"` exactly
      when the JSON record's nested flag is the boolean `True`. */
  lemma CsvJsonAgreeOnHazard(approach: CloseApproach)
    requires approach.neo.Some?
    ensures CsvRow(approach).value[6] == Str("True")
            <==> JsonRecord(approach).value.fields[NeoKey].fields[PotentiallyHazardous] == Flag(true)
  {
  }

}
