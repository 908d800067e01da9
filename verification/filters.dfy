/** Predicate filters over close approaches and the result limiter
    (filters.py). The five `AttributeFilter` subclasses and the base class
    become one filter type tagged with the attribute it reads. */
module Filters {
  import opened Wrappers
  import opened Models

  /** A value taking part in a comparison: a calendar day, a finite number,
      NaN, a boolean or `None`. */
  datatype Operand = Day(date: Date) | Num(x: real) | NotNum | Boolean(b: bool) | Nothing

  /** The comparators `operator.eq`, `operator.ge` and `operator.le`. */
  datatype Op = Eq | Ge | Le

  /** Which `get` a filter uses: the base class's, or one of the five overrides. */
  datatype Attribute = Unspecified | ApproachDate | Distance | Velocity | NeoDiameter | NeoHazardous

  /** `AttributeFilter(op, value)` of the subclass that reads `attribute`. */
  datatype AttributeFilter = AttributeFilter(attribute: Attribute, op: Op, value: Operand)

  predicate IsNumeric(v: Operand) {
    v.Num? || v.NotNum? || v.Boolean?
  }

  /** The numeric value of a number or a boolean (`True` is 1); `None` for NaN
      and for non-numbers. */
  function NumberOf(v: Operand): Option<real> {
    match v
    case Num(x) => Some(x)
    case Boolean(b) => Some(if b then 1.0 else 0.0)
    case _ => None
  }

  /** Python `==`: numbers compare by value (NaN equals nothing), values of
      unrelated types are never equal. */
  function Equals(lhs: Operand, rhs: Operand): (r: bool)
    ensures lhs.NotNum? || rhs.NotNum? ==> !r
    ensures NumberOf(lhs).Some? && NumberOf(rhs).Some? ==> (r <==> NumberOf(lhs).value == NumberOf(rhs).value)
    ensures lhs.Day? && rhs.Day? ==> (r <==> lhs.date == rhs.date)
    ensures lhs.Nothing? && rhs.Nothing? ==> r
    ensures r ==> (lhs.Day? <==> rhs.Day?) && (lhs.Nothing? <==> rhs.Nothing?)
  {
    if IsNumeric(lhs) && IsNumeric(rhs) then
      NumberOf(lhs).Some? && NumberOf(rhs).Some? && NumberOf(lhs).value == NumberOf(rhs).value
    else
      lhs == rhs
  }

  /** Python `<=`: numbers by value (false when NaN is involved), days by the
      calendar, and `TypeError` for any other pairing, `None` included. */
  function AtMost(lhs: Operand, rhs: Operand): (r: Result<bool, Error>)
    ensures r.Failure? <==> !((IsNumeric(lhs) && IsNumeric(rhs)) || (lhs.Day? && rhs.Day?))
    ensures r.Failure? ==> r.error == TypeError
    ensures (lhs.NotNum? || rhs.NotNum?) && r.Success? ==> !r.value
    ensures NumberOf(lhs).Some? && NumberOf(rhs).Some? ==> r == Success(NumberOf(lhs).value <= NumberOf(rhs).value)
    ensures lhs.Day? && rhs.Day? ==> r == Success(DateLe(lhs.date, rhs.date))
  {
    if IsNumeric(lhs) && IsNumeric(rhs) then
      Success(NumberOf(lhs).Some? && NumberOf(rhs).Some? && NumberOf(lhs).value <= NumberOf(rhs).value)
    else if lhs.Day? && rhs.Day? then
      Success(DateLe(lhs.date, rhs.date))
    else
      Failure(TypeError)
  }

  /** `op(lhs, rhs)`: `eq` never raises; `ge` and `le` order numbers by value
      and days by the calendar, and raise `TypeError` on any other pairing. */
  function Compare(op: Op, lhs: Operand, rhs: Operand): (r: Result<bool, Error>)
    ensures op.Eq? ==> r.Success? && (r.value <==> Equals(lhs, rhs))
    ensures !op.Eq? ==> (r.Failure? <==> !((IsNumeric(lhs) && IsNumeric(rhs)) || (lhs.Day? && rhs.Day?)))
    ensures !op.Eq? && r.Failure? ==> r.error == TypeError
    ensures !op.Eq? && (lhs.NotNum? || rhs.NotNum?) && r.Success? ==> !r.value
    ensures NumberOf(lhs).Some? && NumberOf(rhs).Some? ==>
              (op.Ge? ==> r == Success(NumberOf(lhs).value >= NumberOf(rhs).value))
              && (op.Le? ==> r == Success(NumberOf(lhs).value <= NumberOf(rhs).value))
    ensures lhs.Day? && rhs.Day? ==>
              (op.Ge? ==> r == Success(DateLe(rhs.date, lhs.date)))
              && (op.Le? ==> r == Success(DateLe(lhs.date, rhs.date)))
  {
    match op
    case Eq => Success(Equals(lhs, rhs))
    case Ge => AtMost(rhs, lhs)
    case Le => AtMost(lhs, rhs)
  }

  /** A diameter as a comparison operand. */
  function DiameterOperand(d: Diameter): Operand {
    match d
    case Km(x) => Num(x)
    case NaN => NotNum
  }

  /** `get(approach)` of the filter class reading `attribute`. The base class
      raises `UnsupportedCriterionError`; reading through an unlinked
      approach's `neo` (`None`) raises `AttributeError`. */
  function Extract(attribute: Attribute, approach: CloseApproach): (r: Result<Operand, Error>)
    ensures r.Failure? <==> attribute.Unspecified? || ((attribute.NeoDiameter? || attribute.NeoHazardous?) && approach.neo.None?)
    ensures attribute.Unspecified? ==> r == Failure(UnsupportedCriterion)
    ensures attribute.ApproachDate? ==> r == Success(Day(approach.time.Day()))
    ensures attribute.Distance? ==> r == Success(Num(approach.distance))
    ensures attribute.Velocity? ==> r == Success(Num(approach.velocity))
    ensures attribute.NeoDiameter? && approach.neo.Some? ==> r == Success(DiameterOperand(approach.neo.value.diameter))
    ensures attribute.NeoHazardous? && approach.neo.Some? ==>
              r == Success(if approach.neo.value.hazardous.Some? then Boolean(approach.neo.value.hazardous.value) else Nothing)
    ensures (attribute.NeoDiameter? || attribute.NeoHazardous?) && approach.neo.None? ==> r == Failure(AttributeError)
  {
    match attribute
    case Unspecified => Failure(UnsupportedCriterion)
    case ApproachDate => Success(Day(approach.time.Day()))
    case Distance => Success(Num(approach.distance))
    case Velocity => Success(Num(approach.velocity))
    case NeoDiameter =>
      if approach.neo.None? then Failure(AttributeError)
      else Success(DiameterOperand(approach.neo.value.diameter))
    case NeoHazardous =>
      if approach.neo.None? then Failure(AttributeError)
      else Success(match approach.neo.value.hazardous case Some(b) => Boolean(b) case None => Nothing)
  }

  /** `filter(approach)`: `op(get(approach), value)`, the reference value on
      the right. */
  function Call(f: AttributeFilter, approach: CloseApproach): (r: Result<bool, Error>)
    ensures Extract(f.attribute, approach).Failure? ==> r == Failure(Extract(f.attribute, approach).error)
    ensures f.op.Eq? && Extract(f.attribute, approach).Success? ==>
              r == Success(Equals(Extract(f.attribute, approach).value, f.value))
    ensures f.op.Ge? && Extract(f.attribute, approach).Success? ==>
              r == AtMost(f.value, Extract(f.attribute, approach).value)
    ensures f.op.Le? && Extract(f.attribute, approach).Success? ==>
              r == AtMost(Extract(f.attribute, approach).value, f.value)
  {
    var attribute :- Extract(f.attribute, approach);
    Compare(f.op, attribute, f.value)
  }

  /** An approach matches a collection of filters when every filter accepts
      it. Filters are called in order and the first one that rejects the
      approach, or raises, decides. */
  function MatchesAll(filters: seq<AttributeFilter>, approach: CloseApproach): (r: Result<bool, Error>)
    ensures r == Success(true) <==> forall i :: 0 <= i < |filters| ==> Call(filters[i], approach) == Success(true)
    ensures r.Success? && !r.value ==>
              exists i :: 0 <= i < |filters| && Call(filters[i], approach) == Success(false)
                          && forall j :: 0 <= j < i ==> Call(filters[j], approach) == Success(true)
    ensures r.Failure? ==>
              exists i :: 0 <= i < |filters| && Call(filters[i], approach) == Failure(r.error)
                          && forall j :: 0 <= j < i ==> Call(filters[j], approach) == Success(true)
  {
    if |filters| == 0 then Success(true)
    else
      var first :- Call(filters[0], approach);
      if !first then Success(false)
      else
        var rest := MatchesAll(filters[1..], approach);
        assert forall i :: 1 <= i < |filters| ==> filters[i] == filters[1..][i - 1];
        rest
  }

  /** The ten criteria `create_filters` accepts, each `None` when the option
      was not given on the command line. */
  datatype Criteria = Criteria(date: Option<Date>, startDate: Option<Date>, endDate: Option<Date>,
                               distanceMin: Option<real>, distanceMax: Option<real>,
                               velocityMin: Option<real>, velocityMax: Option<real>,
                               diameterMin: Option<real>, diameterMax: Option<real>,
                               hazardous: Option<bool>)

  /** The names of the ten criteria, keys of `filter_mappings`. */
  datatype Criterion =
    | OnDate | StartDate | EndDate | DistanceMin | DistanceMax
    | VelocityMin | VelocityMax | DiameterMin | DiameterMax | Hazardous

  /** The iteration order of `filter_mappings`. */
  const CriterionOrder: seq<Criterion> :=
    [OnDate, StartDate, EndDate, DistanceMin, DistanceMax,
     VelocityMin, VelocityMax, DiameterMin, DiameterMax, Hazardous]

  /** `filter_mappings[key]`: the filter class and comparator of a criterion.
      The base class is never used, the `*_min` and `start_date` criteria are
      lower bounds, the `*_max` and `end_date` criteria upper bounds, and only
      `date` and `hazardous` test equality. */
  function Mapping(k: Criterion): (r: (Attribute, Op))
    ensures !r.0.Unspecified?
    ensures r.1.Eq? <==> k == OnDate || k == Hazardous
    ensures r.1.Ge? <==> k == StartDate || k == DistanceMin || k == VelocityMin || k == DiameterMin
    ensures r.0.ApproachDate? <==> k == OnDate || k == StartDate || k == EndDate
  {
    match k
    case OnDate => (ApproachDate, Eq)
    case StartDate => (ApproachDate, Ge)
    case EndDate => (ApproachDate, Le)
    case DistanceMin => (Distance, Ge)
    case DistanceMax => (Distance, Le)
    case VelocityMin => (Velocity, Ge)
    case VelocityMax => (Velocity, Le)
    case DiameterMin => (NeoDiameter, Ge)
    case DiameterMax => (NeoDiameter, Le)
    case Hazardous => (NeoHazardous, Eq)
  }

  function DayOption(d: Option<Date>): Option<Operand> {
    match d
    case Some(x) => Some(Day(x))
    case None => None
  }

  function NumOption(n: Option<real>): Option<Operand> {
    match n
    case Some(x) => Some(Num(x))
    case None => None
  }

  /** `filter_values.get(key)`: the value of criterion `k`, a day for the
      three date criteria, a boolean for `hazardous` and a number otherwise. */
  function ValueOf(c: Criteria, k: Criterion): (r: Option<Operand>)
    ensures r.Some? ==> (r.value.Day? <==> Mapping(k).0.ApproachDate?)
    ensures r.Some? ==> (r.value.Boolean? <==> k == Hazardous)
    ensures r.Some? ==> (r.value.Num? <==> !Mapping(k).0.ApproachDate? && k != Hazardous)
    ensures k == OnDate ==> (r.Some? <==> c.date.Some?) && (r.Some? ==> r.value.date == c.date.value)
    ensures k == StartDate ==> (r.Some? <==> c.startDate.Some?) && (r.Some? ==> r.value.date == c.startDate.value)
    ensures k == EndDate ==> (r.Some? <==> c.endDate.Some?) && (r.Some? ==> r.value.date == c.endDate.value)
    ensures k == DistanceMin ==> (r.Some? <==> c.distanceMin.Some?) && (r.Some? ==> r.value.x == c.distanceMin.value)
    ensures k == DistanceMax ==> (r.Some? <==> c.distanceMax.Some?) && (r.Some? ==> r.value.x == c.distanceMax.value)
    ensures k == VelocityMin ==> (r.Some? <==> c.velocityMin.Some?) && (r.Some? ==> r.value.x == c.velocityMin.value)
    ensures k == VelocityMax ==> (r.Some? <==> c.velocityMax.Some?) && (r.Some? ==> r.value.x == c.velocityMax.value)
    ensures k == DiameterMin ==> (r.Some? <==> c.diameterMin.Some?) && (r.Some? ==> r.value.x == c.diameterMin.value)
    ensures k == DiameterMax ==> (r.Some? <==> c.diameterMax.Some?) && (r.Some? ==> r.value.x == c.diameterMax.value)
    ensures k == Hazardous ==> (r.Some? <==> c.hazardous.Some?) && (r.Some? ==> r.value.b == c.hazardous.value)
  {
    match k
    case OnDate => DayOption(c.date)
    case StartDate => DayOption(c.startDate)
    case EndDate => DayOption(c.endDate)
    case DistanceMin => NumOption(c.distanceMin)
    case DistanceMax => NumOption(c.distanceMax)
    case VelocityMin => NumOption(c.velocityMin)
    case VelocityMax => NumOption(c.velocityMax)
    case DiameterMin => NumOption(c.diameterMin)
    case DiameterMax => NumOption(c.diameterMax)
    case Hazardous => match c.hazardous case Some(b) => Some(Boolean(b)) case None => None
  }

  /** `filter_class(op, value)` for criterion `k`. */
  function FilterFor(k: Criterion, v: Operand): AttributeFilter {
    AttributeFilter(Mapping(k).0, Mapping(k).1, v)
  }

  /** The filters the loop of `create_filters` appends while visiting `keys`:
      one for each criterion whose value is not `None`, in visiting order. */
  function FiltersFrom(keys: seq<Criterion>, c: Criteria): (r: seq<AttributeFilter>)
    ensures |r| <= |keys|
    ensures forall k :: k in keys && ValueOf(c, k).Some? ==> FilterFor(k, ValueOf(c, k).value) in r
    ensures forall f :: f in r ==> exists k :: k in keys && ValueOf(c, k) == Some(f.value) && f == FilterFor(k, f.value)
  {
    if |keys| == 0 then []
    else
      var rest := FiltersFrom(keys[1..], c);
      assert forall k :: k in keys ==> k == keys[0] || k in keys[1..];
      match ValueOf(c, keys[0])
      case Some(v) => [FilterFor(keys[0], v)] + rest
      case None => rest
  }

  /** The loop visits keys in order, so the filters of earlier keys come
      before those of later ones. */
  lemma {:induction false} FiltersFromAppend(front: seq<Criterion>, back: seq<Criterion>, c: Criteria)
    ensures FiltersFrom(front + back, c) == FiltersFrom(front, c) + FiltersFrom(back, c)
  {
    if |front| == 0 {
      assert front + back == back;
    } else {
      assert (front + back)[0] == front[0];
      assert (front + back)[1..] == front[1..] + back;
      FiltersFromAppend(front[1..], back, c);
    }
  }

  /** The loop keeps the visiting order: when the keys at positions i < j
      both have a value, the filter of key i comes before that of key j. */
  lemma FiltersFromOrder(keys: seq<Criterion>, c: Criteria, i: nat, j: nat)
    requires i < j < |keys|
    requires ValueOf(c, keys[i]).Some? && ValueOf(c, keys[j]).Some?
    ensures exists p, q :: 0 <= p < q < |FiltersFrom(keys, c)|
              && FiltersFrom(keys, c)[p] == FilterFor(keys[i], ValueOf(c, keys[i]).value)
              && FiltersFrom(keys, c)[q] == FilterFor(keys[j], ValueOf(c, keys[j]).value)
  {
    var front := keys[..j];
    var back := keys[j..];
    assert front + back == keys;
    FiltersFromAppend(front, back, c);
    var a := FiltersFrom(front, c);
    var b := FiltersFrom(back, c);
    var fi := FilterFor(keys[i], ValueOf(c, keys[i]).value);
    var fj := FilterFor(keys[j], ValueOf(c, keys[j]).value);
    assert front[i] == keys[i] && back[0] == keys[j];
    GivenKeyHasFilter(front, c, i);
    GivenKeyHasFilter(back, c, 0);
    var p :| 0 <= p < |a| && a[p] == fi;
    var q :| 0 <= q < |b| && b[q] == fj;
    AppendIndex(a, b, p, q);
  }

  lemma GivenKeyHasFilter(keys: seq<Criterion>, c: Criteria, i: nat)
    requires i < |keys| && ValueOf(c, keys[i]).Some?
    ensures FilterFor(keys[i], ValueOf(c, keys[i]).value) in FiltersFrom(keys, c)
  {
  }

  /** Where the items of two joined sequences end up. */
  lemma AppendIndex<T>(a: seq<T>, b: seq<T>, p: nat, q: nat)
    requires p < |a| && q < |b|
    ensures (a + b)[p] == a[p] && (a + b)[|a| + q] == b[q]
  {
  }

  /** `create_filters` yields its filters in `filter_mappings` order: when
      two criteria are given, the filter of the one listed first comes first. */
  lemma CreateFiltersOrder(c: Criteria, i: nat, j: nat)
    requires i < j < |CriterionOrder|
    requires ValueOf(c, CriterionOrder[i]).Some? && ValueOf(c, CriterionOrder[j]).Some?
    ensures exists p, q :: 0 <= p < q < |CreateFilters(c)|
              && CreateFilters(c)[p] == FilterFor(CriterionOrder[i], ValueOf(c, CriterionOrder[i]).value)
              && CreateFilters(c)[q] == FilterFor(CriterionOrder[j], ValueOf(c, CriterionOrder[j]).value)
  {
    FiltersFromOrder(CriterionOrder, c, i, j);
    CreateFiltersInOrder(c);
  }

  /** `create_filters` is the loop over every criterion in order. */
  lemma CreateFiltersInOrder(c: Criteria)
    ensures CreateFilters(c) == FiltersFrom(CriterionOrder, c)
  {
  }

  /** `create_filters`. */
  function CreateFilters(c: Criteria): (r: seq<AttributeFilter>)
    ensures forall k, v :: FilterFor(k, v) in r <==> ValueOf(c, k) == Some(v)
    ensures forall f :: f in r ==> exists k :: ValueOf(c, k) == Some(f.value) && f == FilterFor(k, f.value)
    ensures (forall k :: ValueOf(c, k).None?) ==> r == []
  {
    var r := FiltersFrom(CriterionOrder, c);
    EveryCriterionListed();
    assert forall k, v | FilterFor(k, v) in r :: ValueOf(c, k) == Some(v) by {
      forall k, v | FilterFor(k, v) in r ensures ValueOf(c, k) == Some(v) {
        var k' :| k' in CriterionOrder && ValueOf(c, k') == Some(v) && FilterFor(k, v) == FilterFor(k', v);
        MappingInjective(k, k');
      }
    }
    assert |r| > 0 ==> r[0] in r;
    r
  }

  /** `filter_mappings` has an entry for every criterion. */
  lemma EveryCriterionListed()
    ensures forall k :: k in CriterionOrder
  {
    forall k ensures k in CriterionOrder {
      match k
      case OnDate => assert CriterionOrder[0] == k;
      case StartDate => assert CriterionOrder[1] == k;
      case EndDate => assert CriterionOrder[2] == k;
      case DistanceMin => assert CriterionOrder[3] == k;
      case DistanceMax => assert CriterionOrder[4] == k;
      case VelocityMin => assert CriterionOrder[5] == k;
      case VelocityMax => assert CriterionOrder[6] == k;
      case DiameterMin => assert CriterionOrder[7] == k;
      case DiameterMax => assert CriterionOrder[8] == k;
      case Hazardous => assert CriterionOrder[9] == k;
    }
  }

  /** No two criteria share a filter class and comparator. */
  lemma MappingInjective(k: Criterion, k': Criterion)
    requires Mapping(k) == Mapping(k')
    ensures k == k'
  {
  }

  /** The set of criteria that were given. */
  function Specified(c: Criteria): set<Criterion> {
    SpecifiedAmong(CriterionOrder, c)
  }

  /** The criteria among `keys` whose value is not `None`. */
  function SpecifiedAmong(keys: seq<Criterion>, c: Criteria): set<Criterion> {
    set k | k in keys && ValueOf(c, k).Some?
  }

  /** Over distinct keys, one filter is appended per key whose value is not
      `None`. */
  lemma {:induction false} FiltersFromCount(keys: seq<Criterion>, c: Criteria)
    requires forall i, j :: 0 <= i < j < |keys| ==> keys[i] != keys[j]
    ensures |FiltersFrom(keys, c)| == |SpecifiedAmong(keys, c)|
  {
    if |keys| == 0 {
      assert SpecifiedAmong(keys, c) == {};
    } else {
      var rest := keys[1..];
      FiltersFromCount(rest, c);
      var s := SpecifiedAmong(keys, c);
      var s' := SpecifiedAmong(rest, c);
      assert keys[0] !in rest by {
        forall j | 0 <= j < |rest| ensures rest[j] != keys[0] {
          assert rest[j] == keys[j + 1];
        }
      }
      assert forall k :: k in keys <==> k == keys[0] || k in rest;
      if ValueOf(c, keys[0]).Some? {
        assert s == s' + {keys[0]};
        assert |FiltersFrom(keys, c)| == 1 + |FiltersFrom(rest, c)|;
      } else {
        assert s == s';
        assert FiltersFrom(keys, c) == FiltersFrom(rest, c);
      }
    }
  }

  /** Each criterion appears once in `filter_mappings`. */
  lemma CriterionOrderDistinct()
    ensures forall i, j :: 0 <= i < j < |CriterionOrder| ==> CriterionOrder[i] != CriterionOrder[j]
  {
  }

  /** `create_filters` yields exactly one filter per criterion that is not
      `None`. */
  lemma CreateFiltersCount(c: Criteria)
    ensures |CreateFilters(c)| == |Specified(c)|
  {
    CriterionOrderDistinct();
    FiltersFromCount(CriterionOrder, c);
    assert CreateFilters(c) == FiltersFrom(CriterionOrder, c);
  }

  /** `--not-hazardous` (`hazardous=False`) is an active criterion: its filter
      rejects approaches of hazardous NEOs and accepts those of harmless ones. */
  lemma NotHazardousIsActive(c: Criteria, approach: CloseApproach)
    requires c.hazardous == Some(false)
    requires approach.neo.Some? && approach.neo.value.hazardous.Some?
    ensures AttributeFilter(NeoHazardous, Eq, Boolean(false)) in CreateFilters(c)
    ensures Call(AttributeFilter(NeoHazardous, Eq, Boolean(false)), approach)
            == Success(!approach.neo.value.hazardous.value)
  {
    assert ValueOf(c, Hazardous) == Some(Boolean(false));
    assert FilterFor(Hazardous, Boolean(false)) == AttributeFilter(NeoHazardous, Eq, Boolean(false));
    HazardFilter(false, approach);
  }

  /** `hazardous=b` accepts an approach exactly when its NEO's flag is `b`; a
      NEO whose flag is `None` fails both `True` and `False`, and an unlinked
      approach raises `AttributeError`. */
  lemma HazardFilter(b: bool, approach: CloseApproach)
    ensures approach.neo.Some? ==>
              Call(FilterFor(Hazardous, Boolean(b)), approach) == Success(approach.neo.value.hazardous == Some(b))
    ensures approach.neo.None? ==> Call(FilterFor(Hazardous, Boolean(b)), approach) == Failure(AttributeError)
  {
  }

  /** A `date=` filter accepts exactly the approaches on that calendar day,
      whatever their time of day; `start_date=` and `end_date=` bound the
      calendar day inclusively. */
  lemma DateFiltersCompareDays(d: Date, approach: CloseApproach)
    ensures Call(FilterFor(OnDate, Day(d)), approach) == Success(approach.time.Day() == d)
    ensures Call(FilterFor(StartDate, Day(d)), approach) == Success(DateLe(d, approach.time.Day()))
    ensures Call(FilterFor(EndDate, Day(d)), approach) == Success(DateLe(approach.time.Day(), d))
  {
  }

  /** Two approaches on the same calendar day get the same verdict from every
      date filter. */
  lemma DateFiltersIgnoreTimeOfDay(f: AttributeFilter, a: CloseApproach, b: CloseApproach)
    requires f.attribute.ApproachDate?
    requires a.time.Day() == b.time.Day()
    ensures Call(f, a) == Call(f, b)
  {
  }

  /** `--date 2020-01-01` matches an approach at 2020-01-01 13:45 and rejects
      one at 2020-01-02 00:01. */
  lemma DateFilterExample(a: CloseApproach, b: CloseApproach)
    requires a.time == DateTime(2020, 1, 1, 13, 45)
    requires b.time == DateTime(2020, 1, 2, 0, 1)
    ensures Call(FilterFor(OnDate, Day(Date(2020, 1, 1))), a) == Success(true)
    ensures Call(FilterFor(OnDate, Day(Date(2020, 1, 1))), b) == Success(false)
  {
  }

  /** Bounds on distance and velocity put the reference value on the right:
      `*_min` keeps values at or above it, `*_max` at or below it. */
  lemma NumericBounds(x: real, approach: CloseApproach)
    ensures Call(FilterFor(DistanceMin, Num(x)), approach) == Success(approach.distance >= x)
    ensures Call(FilterFor(DistanceMax, Num(x)), approach) == Success(approach.distance <= x)
    ensures Call(FilterFor(VelocityMin, Num(x)), approach) == Success(approach.velocity >= x)
    ensures Call(FilterFor(VelocityMax, Num(x)), approach) == Success(approach.velocity <= x)
  {
  }

  /** Diameter bounds compare the linked NEO's diameter; an unknown (NaN)
      diameter satisfies no bound. */
  lemma DiameterBounds(x: real, approach: CloseApproach)
    requires approach.neo.Some?
    ensures approach.neo.value.diameter.NaN? ==>
              Call(FilterFor(DiameterMin, Num(x)), approach) == Success(false)
              && Call(FilterFor(DiameterMax, Num(x)), approach) == Success(false)
    ensures approach.neo.value.diameter.Km? ==>
              Call(FilterFor(DiameterMin, Num(x)), approach) == Success(approach.neo.value.diameter.km >= x)
              && Call(FilterFor(DiameterMax, Num(x)), approach) == Success(approach.neo.value.diameter.km <= x)
  {
  }

  /** The base class has no attribute to read: calling it raises
      `UnsupportedCriterionError` rather than answering false. */
  lemma BaseFilterUnsupported(op: Op, v: Operand, approach: CloseApproach)
    ensures Call(AttributeFilter(Unspecified, op, v), approach) == Failure(UnsupportedCriterion)
  {
  }

  /** `create_filters()` with every argument `None` yields no filter. */
  lemma NoArgumentsNoFilters()
    ensures CreateFilters(Criteria(None, None, None, None, None, None, None, None, None, None)) == []
  {
  }

  /** With no criteria given there is nothing to reject: every approach
      matches. */
  lemma NoCriteriaMatchEverything(c: Criteria, approach: CloseApproach)
    requires forall k :: ValueOf(c, k).None?
    ensures MatchesAll(CreateFilters(c), approach) == Success(true)
  {
  }

  /** Only `distance_max` given: `create_filters` yields that one filter. */
  lemma SingleCriterion(c: Criteria, x: real)
    requires c == Criteria(None, None, None, None, Some(x), None, None, None, None, None)
    ensures CreateFilters(c) == [FilterFor(DistanceMax, Num(x))]
  {
    assert |CreateFilters(c)| == 1 by {
      EveryCriterionListed();
      assert Specified(c) == {DistanceMax};
      CreateFiltersCount(c);
    }
    assert ValueOf(c, DistanceMax) == Some(Num(x));
    OnlyElement(CreateFilters(c), FilterFor(DistanceMax, Num(x)));
  }

  lemma OnlyElement<T>(s: seq<T>, x: T)
    requires |s| == 1 && x in s
    ensures s == [x]
  {
  }

  /** With only `--max-distance x` given, an approach matches exactly when
      its distance is at most `x`. */
  lemma MaxDistanceOnly(c: Criteria, x: real, approach: CloseApproach)
    requires c == Criteria(None, None, None, None, Some(x), None, None, None, None, None)
    ensures MatchesAll(CreateFilters(c), approach) == Success(approach.distance <= x)
  {
    SingleCriterion(c, x);
    SingleFilter(FilterFor(DistanceMax, Num(x)), approach);
  }

  /** `--max-distance 0.5` keeps approaches at 0.3 and 0.5 au and drops the
      one at 0.7 au. */
  lemma MaxDistanceExample(c: Criteria, a: CloseApproach, b: CloseApproach, d: CloseApproach)
    requires c == Criteria(None, None, None, None, Some(0.5), None, None, None, None, None)
    requires a.distance == 0.3 && b.distance == 0.5 && d.distance == 0.7
    ensures MatchesAll(CreateFilters(c), a) == Success(true)
    ensures MatchesAll(CreateFilters(c), b) == Success(true)
    ensures MatchesAll(CreateFilters(c), d) == Success(false)
  {
    MaxDistanceOnly(c, 0.5, a);
    MaxDistanceOnly(c, 0.5, b);
    MaxDistanceOnly(c, 0.5, d);
  }

  /** A collection of one filter matches exactly when that filter does. */
  lemma SingleFilter(f: AttributeFilter, approach: CloseApproach)
    ensures MatchesAll([f], approach) == Call(f, approach)
  {
    assert [f][1..] == [];
  }

  function Min(a: int, b: int): int {
    if a <= b then a else b
  }

  /** The loop of `limit` once `count` items have been yielded: stop when
      `count >= n`, otherwise yield the next item. */
  function LimitFrom<T>(s: seq<T>, n: int, count: nat): (r: seq<T>)
    ensures |r| == if count >= n then 0 else Min(n - count, |s|)
    ensures r == s[..|r|]
    decreases |s|
  {
    if |s| == 0 || count >= n then []
    else [s[0]] + LimitFrom(s[1..], n, count + 1)
  }

  /** `limit(iterator, n)`: the whole stream when `n` is `None` or 0,
      otherwise at most its first `n` items. */
  function Limit<T>(s: seq<T>, n: Option<int>): (r: seq<T>)
    ensures n.None? || n.value == 0 ==> r == s
    ensures n.Some? && n.value > 0 ==> |r| == Min(n.value, |s|) && r == s[..|r|]
    ensures n.Some? && n.value < 0 ==> r == []
  {
    if n.None? || n.value == 0 then s else LimitFrom(s, n.value, 0)
  }

  /** Limiting twice to the same cap is the same as limiting once. */
  lemma LimitIdempotent<T>(s: seq<T>, n: Option<int>)
    ensures Limit(Limit(s, n), n) == Limit(s, n)
  {
  }

}
