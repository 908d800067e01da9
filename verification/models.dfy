/** Near-Earth objects and their close approaches (models.py): construction
    from keyword information with the normalisation and coercion policy of the
    Python constructors, `fullname`, and the two `serialize` dictionaries. */
module Models {
  import opened Wrappers
  import Decimal

  /** The exceptions the modelled Python code can raise. */
  datatype Error = UnsupportedCriterion | TypeError | ValueError | AttributeError

  /** A calendar day, as `datetime.date`. Days compare lexicographically. */
  datatype Date = Date(year: int, month: int, day: int)

  /** A UTC date-time of minute precision, as produced by `cd_to_datetime`. */
  datatype DateTime = DateTime(year: int, month: int, day: int, hour: int, minute: int) {
    /** `datetime.date()`: the calendar day, with the time of day dropped. */
    function Day(): Date {
      Date(year, month, day)
    }
  }

  /** The `<=` of `datetime.date`: year first, then month, then day. */
  predicate DateLe(a: Date, b: Date) {
    a.year < b.year
    || (a.year == b.year && a.month < b.month)
    || (a.year == b.year && a.month == b.month && a.day <= b.day)
  }

  /** A number handed to a constructor: absent (`None`), text still to be read
      by `float`, or already a number. */
  datatype Raw = Missing | Text(text: string) | Number(x: real)

  /** A diameter in kilometres, or Python's `float('nan')`. */
  datatype Diameter = Km(km: real) | NaN

  /** The keyword arguments `NearEarthObject(**info)` recognises; `info.get`
      yields `None` for an absent key. */
  datatype NeoInfo = NeoInfo(name: Option<string>, designation: Option<string>,
                             diameter: Raw, hazardous: Option<bool>)

  /** A near-Earth object. `approaches` lists the load-order positions of its
      linked close approaches; it is filled in by the database, not here. */
  datatype NearEarthObject = NearEarthObject(designation: Option<string>, name: Option<string>,
                                             diameter: Diameter, hazardous: Option<bool>,
                                             approaches: seq<nat>)

  /** The keyword arguments `CloseApproach(**info)` recognises. `time` is the
      date-time `cd_to_datetime` has already read from the `cd` text. */
  datatype ApproachInfo = ApproachInfo(designation: Option<string>, time: DateTime, distance: Raw,
                                       velocity: real, neo: Option<NearEarthObject>)

  /** A close approach; `neo` stays `None` until the database links it. */
  datatype CloseApproach = CloseApproach(designation: Option<string>, time: DateTime, distance: real,
                                         velocity: real, neo: Option<NearEarthObject>)

  /** The keys of the serialized dictionaries, each standing for the string
      written by `Text`. */
  datatype Key =
    | DatetimeUtc | DistanceAu | VelocityKmS
    | Designation | Name | DiameterKm | PotentiallyHazardous
    | NeoKey
  {
    function Text(): string {
      match this
      case DatetimeUtc => "datetime_utc"
      case DistanceAu => "distance_au"
      case VelocityKmS => "velocity_km_s"
      case Designation => "designation"
      case Name => "name"
      case DiameterKm => "diameter_km"
      case PotentiallyHazardous => "potentially_hazardous"
      case NeoKey => "neo"
    }
  }

  /** The CSV columns are spelled as write.py's `fieldnames`, and no two keys
      share a spelling. */
  lemma KeySpellings()
    ensures forall a: Key, b: Key :: a.Text() == b.Text() ==> a == b
  {
    forall a: Key, b: Key | a.Text() == b.Text() ensures a == b {
      assert a.Text()[0] == b.Text()[0];
      if a.Text()[0] == 'd' {
        assert a.Text()[1] == b.Text()[1];
        assert |a.Text()| == |b.Text()|;
      }
    }
  }

  /** A value stored in a serialized dictionary: text, a finite number, NaN, a
      boolean, `None`, the text `datetime_to_str` renders for a date-time, or
      a nested dictionary. */
  datatype Field =
    | Str(s: string)
    | Real(x: real)
    | NotANumber
    | Flag(b: bool)
    | Null
    | Stamp(t: DateTime)
    | Object(fields: map<Key, Field>)

  /** Python truthiness of a serialized value (`nan` is truthy). */
  predicate Truthy(f: Field) {
    match f
    case Str(s) => s != ""
    case Real(x) => x != 0.0
    case NotANumber => true
    case Flag(b) => b
    case Null => false
    case Stamp(_) => true
    case Object(m) => |m| > 0
  }

  /** `dict.get(key, default)`. */
  function Get(m: map<Key, Field>, key: Key, default: Field): (r: Field)
    ensures key in m ==> r == m[key]
    ensures key !in m ==> r == default
  {
    if key in m then m[key] else default
  }

  /** Only the exact strings `''` and `' '` mean "no name". */
  function NormalizeName(name: Option<string>): (r: Option<string>)
    ensures r.None? <==> (name.None? || name.value == "" || name.value == " ")
    ensures r.Some? ==> r == name
  {
    match name
    case Some(n) => if n == " " || n == "" then None else name
    case None => None
  }

  /** `isDigitorNone`: `float(value)`, with NaN for text `float` rejects
      (`ValueError`). A missing value makes `float(None)` raise `TypeError`,
      which is not caught. */
  function CoerceDiameter(raw: Raw): (r: Result<Diameter, Error>)
    ensures r.Failure? <==> raw.Missing?
    ensures r.Failure? ==> r.error == TypeError
    ensures raw.Number? ==> r == Success(Km(raw.x))
    ensures raw.Text? && Decimal.ParseFloat(raw.text).Some? ==> r == Success(Km(Decimal.ParseFloat(raw.text).value))
    ensures raw.Text? && Decimal.ParseFloat(raw.text).None? ==> r == Success(NaN)
  {
    match raw
    case Missing => Failure(TypeError)
    case Number(x) => Success(Km(x))
    case Text(s) =>
      match Decimal.ParseFloat(s)
      case Some(x) => Success(Km(x))
      case None => Success(NaN)
  }

  /** `NearEarthObject.__init__`. */
  function NewNeo(info: NeoInfo): (r: Result<NearEarthObject, Error>)
    ensures r.Success? <==> !info.diameter.Missing?
    ensures r.Failure? ==> r.error == TypeError
    ensures r.Success? ==> r.value.approaches == []
    ensures r.Success? ==> r.value.name == NormalizeName(info.name)
    ensures r.Success? ==> r.value.designation == info.designation && r.value.hazardous == info.hazardous
    ensures r.Success? ==> CoerceDiameter(info.diameter) == Success(r.value.diameter)
  {
    var diameter :- CoerceDiameter(info.diameter);
    Success(NearEarthObject(info.designation, NormalizeName(info.name), diameter, info.hazardous, []))
  }

  /** How an f-string renders an optional string. */
  function Render(s: Option<string>): string {
    match s
    case Some(t) => t
    case None => "None"
  }

  /** The `fullname` property: `"designation (name)"` when the name is truthy,
      otherwise the designation itself (which may be `None`). */
  function Fullname(neo: NearEarthObject): (r: Option<string>)
    ensures (neo.name.None? || neo.name.value == "") ==> r == neo.designation
    ensures neo.name.Some? && neo.name.value != "" ==>
              r.Some? && |r.value| == |Render(neo.designation)| + |neo.name.value| + 3
              && r.value[..|Render(neo.designation)|] == Render(neo.designation)
              && r.value[|Render(neo.designation)|..|Render(neo.designation)| + 2] == " ("
              && r.value[|Render(neo.designation)| + 2..|r.value| - 1] == neo.name.value
              && r.value[|r.value| - 1] == ')'
  {
    match neo.name
    case Some(n) => if n != "" then Some(Render(neo.designation) + " (" + n + ")") else neo.designation
    case None => neo.designation
  }

  /** A diameter as the value `serialize` stores. */
  function DiameterField(d: Diameter): Field {
    match d
    case Km(x) => Real(x)
    case NaN => NotANumber
  }

  /** The hazardous flag as the value `serialize` stores, unchanged. */
  function HazardField(h: Option<bool>): Field {
    match h
    case Some(b) => Flag(b)
    case None => Null
  }

  const NeoKeys: set<Key> := {Designation, Name, DiameterKm, PotentiallyHazardous}
  const ApproachKeys: set<Key> := {DatetimeUtc, DistanceAu, VelocityKmS}

  /** `NearEarthObject.serialize`. */
  function SerializeNeo(neo: NearEarthObject): (r: map<Key, Field>)
    ensures r.Keys == NeoKeys
    ensures r[Designation] == Str(neo.designation.GetOr(""))
    ensures r[Name] == Str(neo.name.GetOr(""))
    ensures r[DiameterKm].NotANumber? <==> neo.diameter.NaN?
    ensures neo.diameter.Km? ==> r[DiameterKm] == Real(neo.diameter.km)
    ensures r[PotentiallyHazardous].Flag? <==> neo.hazardous.Some?
    ensures neo.hazardous.Some? ==> r[PotentiallyHazardous].b == neo.hazardous.value
    ensures r[PotentiallyHazardous].Null? <==> neo.hazardous.None?
  {
    map[
      Designation := Str(neo.designation.GetOr("")),
      Name := Str(neo.name.GetOr("")),
      DiameterKm := DiameterField(neo.diameter),
      PotentiallyHazardous := HazardField(neo.hazardous)
    ]
  }

  /** The `float(...)` coercion `CloseApproach.__init__` applies to a distance
      that is not already a float: unreadable text raises `ValueError` and a
      missing value raises `TypeError`; neither is caught. */
  function CoerceDistance(raw: Raw): (r: Result<real, Error>)
    ensures raw.Missing? ==> r == Failure(TypeError)
    ensures raw.Number? ==> r == Success(raw.x)
    ensures raw.Text? ==> (r.Success? <==> Decimal.ParseFloat(raw.text).Some?)
    ensures raw.Text? && r.Success? ==> r.value == Decimal.ParseFloat(raw.text).value
    ensures raw.Text? && r.Failure? ==> r.error == ValueError
  {
    match raw
    case Missing => Failure(TypeError)
    case Number(x) => Success(x)
    case Text(s) =>
      match Decimal.ParseFloat(s)
      case Some(x) => Success(x)
      case None => Failure(ValueError)
  }

  /** `CloseApproach.__init__`. */
  function NewApproach(info: ApproachInfo): (r: Result<CloseApproach, Error>)
    ensures r.Success? <==> CoerceDistance(info.distance).Success?
    ensures r.Failure? ==> r.error == CoerceDistance(info.distance).error
    ensures r.Success? ==> r.value.distance == CoerceDistance(info.distance).value
    ensures r.Success? ==> r.value.designation == info.designation && r.value.time == info.time
                           && r.value.velocity == info.velocity && r.value.neo == info.neo
  {
    var distance :- CoerceDistance(info.distance);
    Success(CloseApproach(info.designation, info.time, distance, info.velocity, info.neo))
  }

  /** `CloseApproach.serialize`. A date-time is always truthy, so the
      `""` branch for a missing time never applies. */
  function SerializeApproach(ca: CloseApproach): (r: map<Key, Field>)
    ensures r.Keys == ApproachKeys
    ensures r[DatetimeUtc] == Stamp(ca.time)
    ensures r[DistanceAu] == Real(ca.distance)
    ensures r[VelocityKmS] == Real(ca.velocity)
  {
    map[
      DatetimeUtc := Stamp(ca.time),
      DistanceAu := Real(ca.distance),
      VelocityKmS := Real(ca.velocity)
    ]
  }

  // Properties relating construction to the other operations.

  /** A diameter cell of a CSV file never makes construction fail: text that
      reads as a number gives that number, anything else gives NaN. */
  lemma TextDiameterNeverRaises(name: Option<string>, designation: Option<string>, text: string, hazardous: Option<bool>)
    ensures NewNeo(NeoInfo(name, designation, Text(text), hazardous)).Success?
    ensures var neo := NewNeo(NeoInfo(name, designation, Text(text), hazardous)).value;
            neo.diameter.NaN? <==> Decimal.ParseFloat(text).None?
  {
  }

  /** The numeral of a whole number of kilometres reads back as that diameter. */
  lemma DiameterTextRoundTrip(n: nat)
    ensures CoerceDiameter(Text(Decimal.NatText(n))) == Success(Km(n as real))
  {
    Decimal.NatTextRoundTrip(n);
  }

  /** Text without a digit, such as the empty cell of an unknown diameter,
      becomes NaN. */
  lemma BlankDiameterIsNaN(text: string)
    requires forall i :: 0 <= i < |text| ==> !Decimal.IsDigit(text[i])
    ensures CoerceDiameter(Text(text)) == Success(NaN)
  {
  }

  /** A distance numeral reads back as that distance; text without digits is
      a fatal `ValueError`. */
  lemma DistanceTextRoundTrip(n: nat, junk: string)
    requires forall i :: 0 <= i < |junk| ==> !Decimal.IsDigit(junk[i])
    ensures CoerceDistance(Text(Decimal.NatText(n))) == Success(n as real)
    ensures CoerceDistance(Text(junk)) == Failure(ValueError)
  {
    Decimal.NatTextRoundTrip(n);
    Decimal.NoDigitsNoNumber(junk);
  }

  /** The fullname of a freshly built NEO is just its designation exactly when
      the name given was absent, `''` or `' '`. */
  lemma FullnameOfNewNeo(info: NeoInfo)
    requires !info.diameter.Missing?
    ensures Fullname(NewNeo(info).value) == info.designation
            <==> (info.name.None? || info.name.value == "" || info.name.value == " ")
  {
  }

  /** Serializing a freshly built NEO writes `""` for a name that was absent,
      `''` or `' '`, and the given name otherwise. */
  lemma SerializedNameOfNewNeo(info: NeoInfo)
    requires !info.diameter.Missing?
    ensures SerializeNeo(NewNeo(info).value)[Name]
            == Str(if info.name.None? || info.name.value == " " then "" else info.name.value)
  {
  }
}
