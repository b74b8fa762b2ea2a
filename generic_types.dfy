/** The shared enumerations: durations in seconds and the default reasons. */
module GenericTypes {

  import opened Options

  /** `DurationInSeconds`, in declaration order. */
  datatype Duration =
    Zero | OneMinute | FiveMinutes | TenMinutes | OneHour | SixHours
    | TwelveHours | OneDay | ThreeDays | OneWeek

  /** The declaration order of the durations. */
  const Durations: seq<Duration> :=
    [Zero, OneMinute, FiveMinutes, TenMinutes, OneHour, SixHours,
     TwelveHours, OneDay, ThreeDays, OneWeek]

  /** The value of each enumeration member, in seconds. */
  function Seconds(d: Duration): (s: nat)
    ensures s % 60 == 0
  {
    match d
    case Zero => 0
    case OneMinute => 60
    case FiveMinutes => 300
    case TenMinutes => 600
    case OneHour => 3600
    case SixHours => 21600
    case TwelveHours => 43200
    case OneDay => 86400
    case ThreeDays => 259200
    case OneWeek => 604800
  }

  /** `DefaultReason.NoReasonGiven` */
  const NoReasonGiven: string := "Aucune raison donnée."

  /** `DefaultReason.DiscordLink` */
  const DiscordLink: string := "Envoi d'un lien d'invitation Discord."

  /** JavaScript's `x ? x : d` on an optional number: `null` and `0` are falsy. */
  function NumberOr(x: Option<int>, d: int): (r: int)
    ensures r == d || (x.Some? && r == x.value)
    ensures x.Some? && x.value != 0 ==> r == x.value
    ensures x == None || x == Some(0) ==> r == d
  {
    if x.Some? && x.value != 0 then x.value else d
  }

  /** JavaScript's `x ? x : d` on an optional string: `null` and `""` are falsy. */
  function StringOr(x: Option<string>, d: string): (r: string)
    ensures x.Some? && x.value != "" ==> r == x.value
    ensures x == None || x == Some("") ==> r == d
  {
    if x.Some? && x.value != "" then x.value else d
  }

  /** Every duration is listed once, and the values grow strictly in declaration order. */
  lemma DurationsIncreasing()
    ensures |Durations| == 10
    ensures forall d: Duration :: d in Durations
    ensures forall i, j :: 0 <= i < j < |Durations| ==> Seconds(Durations[i]) < Seconds(Durations[j])
  {
    forall d: Duration ensures d in Durations {
      match d
      case Zero => assert Durations[0] == d;
      case OneMinute => assert Durations[1] == d;
      case FiveMinutes => assert Durations[2] == d;
      case TenMinutes => assert Durations[3] == d;
      case OneHour => assert Durations[4] == d;
      case SixHours => assert Durations[5] == d;
      case TwelveHours => assert Durations[6] == d;
      case OneDay => assert Durations[7] == d;
      case ThreeDays => assert Durations[8] == d;
      case OneWeek => assert Durations[9] == d;
    }
    forall i, j | 0 <= i < j < |Durations|
      ensures Seconds(Durations[i]) < Seconds(Durations[j])
    {
      assert forall k :: 0 <= k < 9 ==> Seconds(Durations[k]) < Seconds(Durations[k + 1]);
      AdjacentIncreasing(i, j);
    }
  }

  lemma {:induction false} AdjacentIncreasing(i: nat, j: nat)
    requires i < j < |Durations|
    requires forall k :: 0 <= k < |Durations| - 1 ==> Seconds(Durations[k]) < Seconds(Durations[k + 1])
    ensures Seconds(Durations[i]) < Seconds(Durations[j])
  {
    if j > i + 1 { AdjacentIncreasing(i, j - 1); }
  }

  /** `Zero` is the only duration that `x ? x : d` replaces by the default. */
  lemma OnlyZeroFalsy(d: Duration, dflt: int)
    ensures NumberOr(Some(Seconds(d)), dflt) != Seconds(d) <==> d == Zero && dflt != 0
  {
  }

  /** The durations are multiples of one another as their names say. */
  lemma DurationRatios()
    ensures Seconds(OneWeek) == 7 * Seconds(OneDay)
    ensures Seconds(OneDay) == 24 * Seconds(OneHour)
    ensures Seconds(OneHour) == 60 * Seconds(OneMinute)
    ensures Seconds(TenMinutes) == 2 * Seconds(FiveMinutes)
    ensures Seconds(ThreeDays) == 3 * Seconds(OneDay)
    ensures Seconds(TwelveHours) == 2 * Seconds(SixHours)
  {
  }

  /** The two default reasons are distinct and non-empty. */
  lemma ReasonsDistinct()
    ensures NoReasonGiven != DiscordLink && NoReasonGiven != "" && DiscordLink != ""
  {
    assert NoReasonGiven[0] != DiscordLink[0];
  }
}
