/** `MotorDigest.DataType`: the six kinds of dataset a motor digest is
    built from, each with its digesting order and its quantisation
    multiplier. */
module DataTypes {

  import opened Wrappers

  datatype DataType =
    | TimeArray      // time points at which data is available (ms)
    | MassSpecific   // mass at a few specific points (0.1 g)
    | MassPerTime    // mass per time point (0.1 g)
    | CgSpecific     // CG position at a few specific points (mm)
    | CgPerTime      // CG position per time point (mm)
    | ForcePerTime   // thrust force per time point (mN)
  {
    /** `getOrder()`: the rank that fixes the only valid digesting sequence. */
    function Order(): (k: int)
      ensures 0 <= k <= 5
    {
      match this
      case TimeArray => 0
      case MassSpecific => 1
      case MassPerTime => 2
      case CgSpecific => 3
      case CgPerTime => 4
      case ForcePerTime => 5
    }

    /** `getMultiplier()`: the scale applied to a real value before rounding. */
    function Multiplier(): (m: int)
      ensures m == 1000 || m == 10000
    {
      match this
      case TimeArray => 1000
      case MassSpecific => 10000
      case MassPerTime => 10000
      case CgSpecific => 1000
      case CgPerTime => 1000
      case ForcePerTime => 1000
    }
  }

  /** The enum's constants in declaration order (`DataType.values()`). */
  function AllDataTypes(): (r: seq<DataType>)
    ensures |r| == 6
    ensures forall i :: 0 <= i < |r| ==> r[i].Order() == i
    ensures forall t: DataType :: r[t.Order()] == t
  {
    [TimeArray, MassSpecific, MassPerTime, CgSpecific, CgPerTime, ForcePerTime]
  }

  /** The multipliers of the table, in declaration order. */
  function Multipliers(): (r: seq<int>)
    ensures r == [1000, 10000, 10000, 1000, 1000, 1000]
  {
    seq(6, i requires 0 <= i < 6 => AllDataTypes()[i].Multiplier())
  }

  /** The data type with a given order, if there is one. */
  function FromOrder(k: int): (r: Option<DataType>)
    ensures r.Some? <==> 0 <= k <= 5
    ensures r.Some? ==> r.value.Order() == k
  {
    if 0 <= k < 6 then Some(AllDataTypes()[k]) else None
  }

  /** Orders are distinct: the order identifies the data type. */
  lemma OrderInjective(s: DataType, t: DataType)
    requires s.Order() == t.Order()
    ensures s == t
  {
  }

  /** `FromOrder` inverts `Order`. */
  lemma FromOrderOfOrder(t: DataType)
    ensures FromOrder(t.Order()) == Some(t)
  {
    OrderInjective(FromOrder(t.Order()).value, t);
  }
}
