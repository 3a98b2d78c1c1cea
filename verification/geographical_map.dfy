/** The world map of the dashboard: the risk tier of a country's
    vulnerability count, its colour, and the name-to-count table the map
    reads. Counts are integers. */
module GeographicalMap {
  import opened Lists

  datatype Tier = NoData | Faible | Modere | Notable | Fort | Maximal

  /** `RISK_COLORS`. */
  function TierColor(t: Tier): string {
    match t
    case NoData => "#D6D6DA"
    case Maximal => "#C00000"
    case Fort => "#FF6600"
    case Notable => "#FFFF00"
    case Modere => "#92D050"
    case Faible => "#00B050"
  }

  /** The severity order of the tiers, `NoData` lowest. */
  function Rank(t: Tier): nat {
    match t
    case NoData => 0
    case Faible => 1
    case Modere => 2
    case Notable => 3
    case Fort => 4
    case Maximal => 5
  }

  /** The thresholds of `getRiskColor`, checked from the top. */
  function RiskTier(value: int): (t: Tier)
    ensures value <= 0 <==> t == NoData
    ensures 1 <= value < 100 <==> t == Faible
    ensures 100 <= value < 1000 <==> t == Modere
    ensures 1000 <= value < 5000 <==> t == Notable
    ensures 5000 <= value < 10000 <==> t == Fort
    ensures 10000 <= value <==> t == Maximal
  {
    if value == 0 then NoData
    else if value >= 10000 then Maximal
    else if value >= 5000 then Fort
    else if value >= 1000 then Notable
    else if value >= 100 then Modere
    else if value >= 1 then Faible
    else NoData
  }

  /** `getRiskColor`. */
  function RiskColor(value: int): (c: string)
    ensures c in {"#D6D6DA", "#C00000", "#FF6600", "#FFFF00", "#92D050", "#00B050"}
    ensures c == TierColor(RiskTier(value))
  {
    TierColor(RiskTier(value))
  }

  /** A larger count never gets a lower tier. */
  lemma RiskTierMonotone(a: int, b: int)
    requires a <= b
    ensures Rank(RiskTier(a)) <= Rank(RiskTier(b))
  {
  }

  /** Each tier has a colour of its own, so the colour tells the tier. */
  lemma TierColorsDistinct(t1: Tier, t2: Tier)
    requires t1 != t2
    ensures TierColor(t1) != TierColor(t2)
  {
  }

  /** The lowest count of each tier above `NoData`. */
  const Thresholds: seq<int> := [1, 100, 1000, 5000, 10000]

  /** The colour of a count changes only when it crosses a threshold. */
  lemma RiskColorChangesOnlyAtThresholds(a: int, b: int)
    requires a <= b
    requires forall i :: 0 <= i < |Thresholds| ==> !(a < Thresholds[i] <= b)
    ensures RiskColor(a) == RiskColor(b)
  {
    assert !(a < Thresholds[0] <= b) && !(a < Thresholds[1] <= b) && !(a < Thresholds[2] <= b);
    assert !(a < Thresholds[3] <= b) && !(a < Thresholds[4] <= b);
  }

  /** `dataMap`: built from `data` in order, so a later entry for the same
      name overwrites an earlier one. */
  function DataMap(data: seq<(string, int)>): (m: map<string, int>)
    ensures forall name :: name in m <==> exists i :: 0 <= i < |data| && data[i].0 == name
  {
    LastWins(data)
  }

  /** `dataMap[name] || 0`: the count drawn for a country, 0 when it is
      absent from the data. */
  function CountryValue(data: seq<(string, int)>, name: string): (v: int)
    ensures (forall i :: 0 <= i < |data| ==> data[i].0 != name) ==> v == 0
  {
    var m := DataMap(data);
    if name in m then m[name] else 0
  }

  /** The last entry for a name decides its count. */
  lemma LastEntryWins(data: seq<(string, int)>, i: nat)
    requires i < |data|
    requires forall j :: i < j < |data| ==> data[j].0 != data[i].0
    ensures CountryValue(data, data[i].0) == data[i].1
  {
    LastWinsValue(data, i);
  }
}
