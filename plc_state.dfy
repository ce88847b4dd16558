/**
 * A controller's ADS state as the shared models report it, and the three
 * classifications the build and monitor servers read off it.
 */
module PlcState {
  import opened Wrappers

  /** The ADS states, in the order of their numeric codes 0..16. */
  datatype PlcAdsState =
    | Invalid | Idle | Reset | Init | Start | Run | Stop | SaveConfig | LoadConfig
    | PowerFailure | PowerGood | Error | Shutdown | Suspend | Resume | Config | Reconfig

  /** The numeric value of each state. */
  function Code(s: PlcAdsState): nat
  {
    match s
    case Invalid => 0      case Idle => 1         case Reset => 2       case Init => 3
    case Start => 4        case Run => 5          case Stop => 6        case SaveConfig => 7
    case LoadConfig => 8   case PowerFailure => 9 case PowerGood => 10  case Error => 11
    case Shutdown => 12    case Suspend => 13     case Resume => 14     case Config => 15
    case Reconfig => 16
  }

  /** The state a numeric value names, if any. */
  function FromCode(n: int): (r: Option<PlcAdsState>)
    ensures r.Some? <==> 0 <= n <= 16
    ensures r.Some? ==> Code(r.value) == n
  {
    if n == 0 then Some(Invalid) else if n == 1 then Some(Idle) else if n == 2 then Some(Reset)
    else if n == 3 then Some(Init) else if n == 4 then Some(Start) else if n == 5 then Some(Run)
    else if n == 6 then Some(Stop) else if n == 7 then Some(SaveConfig) else if n == 8 then Some(LoadConfig)
    else if n == 9 then Some(PowerFailure) else if n == 10 then Some(PowerGood) else if n == 11 then Some(Error)
    else if n == 12 then Some(Shutdown) else if n == 13 then Some(Suspend) else if n == 14 then Some(Resume)
    else if n == 15 then Some(Config) else if n == 16 then Some(Reconfig)
    else None
  }

  datatype PlcStateDto = PlcStateDto(amsNetId: string, state: PlcAdsState, timestamp: int)

  /** `IsRunning`. */
  function IsRunning(dto: PlcStateDto): (r: bool)
    ensures r <==> Code(dto.state) == 5
  {
    dto.state == Run
  }

  /** `IsInConfigMode`. */
  function IsInConfigMode(dto: PlcStateDto): (r: bool)
    ensures r <==> Code(dto.state) >= 15
  {
    dto.state == Config || dto.state == Reconfig
  }

  /** `IsSafeForDeploy`. */
  function IsSafeForDeploy(dto: PlcStateDto): (r: bool)
    ensures r <==> Code(dto.state) == 6 || Code(dto.state) == 15
  {
    dto.state == Stop || dto.state == Config
  }

  /** Every state has its own code, and the code names it back. */
  lemma CodeRoundTrip(s: PlcAdsState)
    ensures Code(s) <= 16 && FromCode(Code(s)) == Some(s)
  {
  }

  /** A running controller is never safe to deploy to. */
  lemma RunningIsNotSafe(dto: PlcStateDto)
    ensures IsRunning(dto) ==> !IsSafeForDeploy(dto) && !IsInConfigMode(dto)
  {
  }

  /** `Config` is both config mode and safe; `Reconfig` is config mode but not safe; `Stop` is safe only. */
  lemma ConfigStates(amsNetId: string, timestamp: int)
    ensures IsInConfigMode(PlcStateDto(amsNetId, Config, timestamp)) && IsSafeForDeploy(PlcStateDto(amsNetId, Config, timestamp))
    ensures IsInConfigMode(PlcStateDto(amsNetId, Reconfig, timestamp)) && !IsSafeForDeploy(PlcStateDto(amsNetId, Reconfig, timestamp))
    ensures !IsInConfigMode(PlcStateDto(amsNetId, Stop, timestamp)) && IsSafeForDeploy(PlcStateDto(amsNetId, Stop, timestamp))
  {
  }

  /** Every state other than Run, Stop, Config and Reconfig satisfies none of the three. */
  lemma OtherStatesSatisfyNone(dto: PlcStateDto)
    requires dto.state !in {Run, Stop, Config, Reconfig}
    ensures !IsRunning(dto) && !IsInConfigMode(dto) && !IsSafeForDeploy(dto)
  {
  }
}
