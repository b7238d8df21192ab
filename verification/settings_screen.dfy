/**
  The decision logic of the G7 settings screen (`G7SettingsViewModel`): how
  the manager's sensor lifecycle state becomes a progress-bar state, its
  label colour, bar colour, remaining time and progress fraction; which text
  stands for the last glucose reading; and which manager values the view
  model copies when it is told that the manager changed.

  The manager is seen through `Manager`, a record of the values the view
  model reads from it. The lifecycle state, the three deadlines and the three
  sensor durations are computed elsewhere and are inputs here; the current
  time is an explicit `now`. Display strings are tags, not localized text.
 */
module SettingsScreen {
  import opened Wrappers
  import opened Clock
  import opened GlucoseMessages
  import StateSnapshot

  // ---------------------------------------------------------------------------
  // States and styles
  // ---------------------------------------------------------------------------

  /** `G7SensorLifecycleState`, as reported by the manager. */
  datatype LifecycleState = Searching | Ok | Warmup | Failed | GracePeriod | Expired

  /** `G7ProgressBarState`. */
  datatype ProgressBarState =
    | WarmupProgress
    | LifetimeRemaining
    | GracePeriodRemaining
    | SensorFailed
    | SensorExpired
    | SearchingForSensor
  {
    /** The three states whose bar counts down to a deadline. */
    predicate IsTimed()
    {
      WarmupProgress? || LifetimeRemaining? || GracePeriodRemaining?
    }
  }

  /** LoopKit's `ColorStyle`. */
  datatype ColorStyle = Normal | Critical | Glucose | Warning | Dimmed

  /** The sensor's fixed durations (`G7Sensor.warmupDuration`, `.lifetime`, `.gracePeriod`), in seconds. */
  datatype SensorDurations = SensorDurations(warmup: TimeInterval, lifetime: TimeInterval, gracePeriod: TimeInterval)

  predicate ValidDurations(d: SensorDurations)
  {
    d.warmup > 0 && d.lifetime > 0 && d.gracePeriod > 0
  }

  /** What the view model reads from the CGM manager. */
  datatype Manager = Manager(
    isScanning: bool,
    isConnected: bool,
    sensorName: Option<string>,
    sensorActivatedAt: Option<Date>,
    lastConnect: Option<Date>,
    latestReading: Option<GlucoseMessage>,
    latestReadingReceivedAt: Option<Date>,
    lifecycleState: LifecycleState,
    sensorFinishesWarmupAt: Option<Date>,
    sensorExpiresAt: Option<Date>,
    sensorEndsAt: Option<Date>)

  // ---------------------------------------------------------------------------
  // Progress bar
  // ---------------------------------------------------------------------------

  /** `progressBarState`: one bar state per lifecycle state. */
  function ProgressBarStateOf(state: LifecycleState): (p: ProgressBarState)
    ensures p.SearchingForSensor? <==> state.Searching?
    ensures p.LifetimeRemaining? <==> state.Ok?
    ensures p.WarmupProgress? <==> state.Warmup?
    ensures p.SensorFailed? <==> state.Failed?
    ensures p.GracePeriodRemaining? <==> state.GracePeriod?
    ensures p.SensorExpired? <==> state.Expired?
  {
    match state
    case Searching => SearchingForSensor
    case Ok => LifetimeRemaining
    case Warmup => WarmupProgress
    case Failed => SensorFailed
    case GracePeriod => GracePeriodRemaining
    case Expired => SensorExpired
  }

  /** The lifecycle state a bar state stands for: the inverse of `ProgressBarStateOf`. */
  function LifecycleStateOf(p: ProgressBarState): LifecycleState
  {
    match p
    case SearchingForSensor => Searching
    case LifetimeRemaining => Ok
    case WarmupProgress => Warmup
    case SensorFailed => Failed
    case GracePeriodRemaining => GracePeriod
    case SensorExpired => Expired
  }

  /** The mapping is a bijection between the six lifecycle states and the six bar states. */
  lemma ProgressBarStateIsBijective(state: LifecycleState, p: ProgressBarState)
    ensures LifecycleStateOf(ProgressBarStateOf(state)) == state
    ensures ProgressBarStateOf(LifecycleStateOf(p)) == p
    ensures ProgressBarStateOf(state) == p <==> state == LifecycleStateOf(p)
  {
  }

  /** The bar label, in its English wording. */
  function Label(p: ProgressBarState): string
  {
    match p
    case SearchingForSensor => "Searching for sensor"
    case SensorExpired => "Sensor expired"
    case WarmupProgress => "Warmup completes in"
    case SensorFailed => "Sensor failed"
    case LifetimeRemaining => "Sensor expires in"
    case GracePeriodRemaining => "Grace period remaining"
  }

  /** Different bar states carry different labels. */
  lemma LabelsDistinct(p: ProgressBarState, q: ProgressBarState)
    ensures Label(p) == Label(q) ==> p == q
  {
  }

  /** `labelColor`. */
  function LabelColor(p: ProgressBarState): (c: ColorStyle)
    ensures c == Critical <==> p.SensorExpired?
    ensures c == Critical || c == ColorStyle.Normal
  {
    match p
    case SensorExpired => Critical
    case _ => ColorStyle.Normal
  }

  /** The deadline the bar of a timed state counts down to. */
  function Deadline(m: Manager, p: ProgressBarState): Option<Date>
    requires p.IsTimed()
  {
    match p
    case WarmupProgress => m.sensorFinishesWarmupAt
    case LifetimeRemaining => m.sensorExpiresAt
    case GracePeriodRemaining => m.sensorEndsAt
  }

  /** `progressValue`: time left to the current state's deadline, never negative. */
  function ProgressValue(m: Manager, now: Date): (r: Option<TimeInterval>)
    ensures var p := ProgressBarStateOf(m.lifecycleState);
            !p.IsTimed() ==> r.None?
    ensures var p := ProgressBarStateOf(m.lifecycleState);
            p.IsTimed() ==> (r.Some? <==> Deadline(m, p).Some?)
    ensures var p := ProgressBarStateOf(m.lifecycleState);
            r.Some? ==> r.value >= 0 && (r.value > 0 <==> Deadline(m, p).value > now)
    ensures var p := ProgressBarStateOf(m.lifecycleState);
            r.Some? && r.value > 0 ==> now + r.value == Deadline(m, p).value
  {
    match ProgressBarStateOf(m.lifecycleState)
    case SensorExpired => None
    case SensorFailed => None
    case SearchingForSensor => None
    case WarmupProgress => RemainingUntil(m.sensorFinishesWarmupAt, now)
    case LifetimeRemaining => RemainingUntil(m.sensorExpiresAt, now)
    case GracePeriodRemaining => RemainingUntil(m.sensorEndsAt, now)
  }

  /** `max(0, deadline.timeIntervalSinceNow)`, absent when the deadline is. */
  function RemainingUntil(deadline: Option<Date>, now: Date): (r: Option<TimeInterval>)
    ensures r.Some? <==> deadline.Some?
    ensures r.Some? ==> r.value >= 0
    ensures r.Some? ==> (r.value > 0 <==> deadline.value > now)
    ensures r.Some? && r.value > 0 ==> now + r.value == deadline.value
  {
    match deadline
    case Some(d) => Some(Max(0, IntervalSinceNow(d, now)))
    case None => None
  }

  function Max(a: int, b: int): int
  {
    if a < b then b else a
  }

  /** As time passes with the manager unchanged, the remaining time never grows and never appears or vanishes. */
  lemma ProgressValueNonIncreasing(m: Manager, now1: Date, now2: Date)
    requires now1 <= now2
    ensures ProgressValue(m, now1).Some? <==> ProgressValue(m, now2).Some?
    ensures ProgressValue(m, now2).Some? ==> ProgressValue(m, now2).value <= ProgressValue(m, now1).value
  {
  }

  /** `progressBarColorStyle`. */
  function ProgressBarColorStyle(m: Manager, now: Date): (c: ColorStyle)
    ensures var p := ProgressBarStateOf(m.lifecycleState);
            p.WarmupProgress? ==> c == Glucose
    ensures var p := ProgressBarStateOf(m.lifecycleState);
            p.SearchingForSensor? || p.SensorFailed? ==> c == Dimmed
    ensures var p := ProgressBarStateOf(m.lifecycleState);
            p.SensorExpired? || p.GracePeriodRemaining? ==> c == Critical
    ensures var p := ProgressBarStateOf(m.lifecycleState);
            p.LifetimeRemaining? ==>
              match ProgressValue(m, now)
              case None => c == Dimmed
              case Some(remaining) => (c == Glucose <==> remaining > Day) && (c == Warning <==> remaining <= Day)
    ensures c != ColorStyle.Normal
  {
    match ProgressBarStateOf(m.lifecycleState)
    case WarmupProgress => Glucose
    case SearchingForSensor => Dimmed
    case SensorExpired => Critical
    case SensorFailed => Dimmed
    case LifetimeRemaining =>
      (match ProgressValue(m, now)
       case None => Dimmed
       case Some(remaining) => if remaining > Day then Glucose else Warning)
    case GracePeriodRemaining => Critical
  }

  /** During the sensor's active life the bar turns from glucose colour to warning exactly 24 hours before expiry. */
  lemma LifetimeColourThreshold(m: Manager, now: Date)
    requires m.lifecycleState.Ok? && m.sensorExpiresAt.Some?
    ensures ProgressBarColorStyle(m, now) == Glucose <==> m.sensorExpiresAt.value - now > Day
    ensures ProgressBarColorStyle(m, now) == Warning <==> m.sensorExpiresAt.value - now <= Day
  {
  }

  /** The full duration of a timed state's countdown. */
  function TimedDuration(d: SensorDurations, p: ProgressBarState): TimeInterval
    requires p.IsTimed()
  {
    match p
    case WarmupProgress => d.warmup
    case LifetimeRemaining => d.lifetime
    case GracePeriodRemaining => d.gracePeriod
  }

  /** `progressBarProgress`: the filled fraction of the bar. */
  function ProgressBarProgress(m: Manager, d: SensorDurations, now: Date): (r: real)
    requires ValidDurations(d)
    ensures var p := ProgressBarStateOf(m.lifecycleState);
            p.SearchingForSensor? ==> r == 0.0
    ensures var p := ProgressBarStateOf(m.lifecycleState);
            p.SensorExpired? ==> r == 1.0
    ensures var p := ProgressBarStateOf(m.lifecycleState);
            p.SensorFailed? ==> r == 0.5
    ensures var p := ProgressBarStateOf(m.lifecycleState);
            p.IsTimed() && (ProgressValue(m, now).None? || ProgressValue(m, now).value <= 0) ==> r == 0.0
    ensures var p := ProgressBarStateOf(m.lifecycleState);
            p.IsTimed() && ProgressValue(m, now).Some? && ProgressValue(m, now).value > 0 ==>
              r < 1.0 && (0.0 <= r <==> ProgressValue(m, now).value <= TimedDuration(d, p))
  {
    var p := ProgressBarStateOf(m.lifecycleState);
    match p
    case SearchingForSensor => 0.0
    case WarmupProgress => ElapsedFraction(ProgressValue(m, now), d.warmup)
    case LifetimeRemaining => ElapsedFraction(ProgressValue(m, now), d.lifetime)
    case GracePeriodRemaining => ElapsedFraction(ProgressValue(m, now), d.gracePeriod)
    case SensorExpired => 1.0
    case SensorFailed => 0.5
  }

  /** `1 - value / duration` when some time remains, otherwise 0. */
  function ElapsedFraction(value: Option<TimeInterval>, duration: TimeInterval): (r: real)
    requires duration > 0
    ensures value.None? || value.value <= 0 ==> r == 0.0
    ensures value.Some? && value.value > 0 ==> r < 1.0 && (0.0 <= r <==> value.value <= duration)
  {
    match value
    case Some(v) =>
      if v > 0 then
        FractionBounds(v, duration);
        1.0 - v as real / duration as real
      else 0.0
    case None => 0.0
  }

  lemma FractionBounds(v: int, duration: int)
    requires v > 0 && duration > 0
    ensures 0.0 < v as real / duration as real
    ensures v as real / duration as real <= 1.0 <==> v <= duration
  {
  }

  /**
    While time remains in a timed state, the bar only fills as time passes.
    (When the remaining time reaches zero the bar drops to 0, so the
    hypothesis that time still remains at `now2` is needed.)
   */
  lemma ProgressNonDecreasing(m: Manager, d: SensorDurations, now1: Date, now2: Date)
    requires ValidDurations(d)
    requires now1 <= now2
    requires ProgressBarStateOf(m.lifecycleState).IsTimed()
    requires ProgressValue(m, now2).Some? && ProgressValue(m, now2).value > 0
    ensures ProgressBarProgress(m, d, now1) <= ProgressBarProgress(m, d, now2)
  {
    ProgressValueNonIncreasing(m, now1, now2);
    var duration := TimedDuration(d, ProgressBarStateOf(m.lifecycleState));
    DivisionMonotone(ProgressValue(m, now2).value, ProgressValue(m, now1).value, duration);
  }

  lemma DivisionMonotone(a: int, b: int, d: int)
    requires 0 < d && a <= b
    ensures a as real / d as real <= b as real / d as real
  {
  }

  // ---------------------------------------------------------------------------
  // Last glucose reading
  // ---------------------------------------------------------------------------

  /** What the screen shows in place of the last glucose value. */
  datatype GlucoseText = Dashes | LowText | HighText | Formatted(quantity: int)

  /** `lastGlucoseString`. */
  function LastGlucoseString(lastReading: Option<GlucoseMessage>): (t: GlucoseText)
    ensures t == Dashes <==> lastReading.None? || lastReading.value.glucoseQuantity.None?
    ensures t == LowText <==>
              lastReading.Some? && lastReading.value.glucoseQuantity.Some?
              && lastReading.value.rangeCategory == Some(RangeCategory.BelowRange)
    ensures t == HighText <==>
              lastReading.Some? && lastReading.value.glucoseQuantity.Some?
              && lastReading.value.rangeCategory == Some(RangeCategory.AboveRange)
    ensures t.Formatted? ==>
              && lastReading.Some?
              && lastReading.value.glucoseQuantity == Some(t.quantity)
              && lastReading.value.rangeCategory !in {Some(RangeCategory.BelowRange), Some(RangeCategory.AboveRange)}
  {
    match lastReading
    case None => Dashes
    case Some(reading) =>
      match reading.glucoseQuantity
      case None => Dashes
      case Some(quantity) =>
        match reading.rangeCategory
        case Some(BelowRange) => LowText
        case Some(AboveRange) => HighText
        case _ => Formatted(quantity)
  }

  /** A reading without a quantity shows dashes even when it is tagged as out of range. */
  lemma MissingQuantityWinsOverRange(reading: GlucoseMessage)
    requires reading.glucoseQuantity.None?
    ensures LastGlucoseString(Some(reading)) == Dashes
  {
  }

  // ---------------------------------------------------------------------------
  // Published values
  // ---------------------------------------------------------------------------

  /** The trend text shown next to the reading: a formatted rate followed by "/min". */
  datatype TrendText = PerMinute(formatted: string)

  /** The view model's published values and the reading it keeps. */
  datatype SettingsViewModel = SettingsViewModel(
    scanning: bool,
    connected: bool,
    sensorName: Option<string>,
    activatedAt: Option<Date>,
    lastConnect: Option<Date>,
    lastGlucoseDate: Option<Date>,
    lastGlucoseTrendFormatted: Option<TrendText>,
    lastReading: Option<GlucoseMessage>)

  /** The values before the first update. */
  function Blank(): SettingsViewModel
  {
    SettingsViewModel(false, false, None, None, None, None, None, None)
  }

  /** The view model shows exactly the manager's current values, apart from the trend text. */
  predicate Mirrors(vm: SettingsViewModel, m: Manager)
  {
    && vm.scanning == m.isScanning
    && vm.connected == m.isConnected
    && vm.sensorName == m.sensorName
    && vm.activatedAt == m.sensorActivatedAt
    && vm.lastConnect == m.lastConnect
    && vm.lastReading == m.latestReading
    && vm.lastGlucoseDate == m.latestReadingReceivedAt
  }

  /**
    The trend-text rule of `updateValues`. `formatTrend` is the glucose
    formatter applied to the reading's trend rate; it may fail. The text is
    replaced only when the reading has a trend rate that formats; otherwise
    the previous text stays.
   */
  predicate TrendUpdated(before: Option<TrendText>, after: Option<TrendText>, m: Manager,
                         formatTrend: int -> Option<string>)
  {
    if m.latestReading.Some? && m.latestReading.value.trendRate.Some?
       && formatTrend(m.latestReading.value.trendRate.value).Some?
    then after == Some(PerMinute(formatTrend(m.latestReading.value.trendRate.value).value))
    else after == before
  }

  /** `updateValues`. */
  function UpdateValues(vm: SettingsViewModel, m: Manager, formatTrend: int -> Option<string>): (r: SettingsViewModel)
    ensures Mirrors(r, m)
    ensures TrendUpdated(vm.lastGlucoseTrendFormatted, r.lastGlucoseTrendFormatted, m, formatTrend)
    ensures (m.latestReading.None? || m.latestReading.value.trendRate.None?) ==>
              r.lastGlucoseTrendFormatted == vm.lastGlucoseTrendFormatted
  {
    var trend :=
      match m.latestReading
      case Some(reading) =>
        (match reading.trendRate
         case Some(rate) =>
           (match formatTrend(rate)
            case Some(text) => Some(PerMinute(text))
            case None => vm.lastGlucoseTrendFormatted)
         case None => vm.lastGlucoseTrendFormatted)
      case None => vm.lastGlucoseTrendFormatted;
    SettingsViewModel(
      m.isScanning, m.isConnected, m.sensorName, m.sensorActivatedAt, m.lastConnect,
      m.latestReadingReceivedAt, trend, m.latestReading)
  }

  /** Mirroring the manager and following the trend rule pins the update down completely. */
  lemma UpdateValuesIsDeterminedByItsContract(vm: SettingsViewModel, m: Manager,
                                              formatTrend: int -> Option<string>, r: SettingsViewModel)
    requires Mirrors(r, m)
    requires TrendUpdated(vm.lastGlucoseTrendFormatted, r.lastGlucoseTrendFormatted, m, formatTrend)
    ensures r == UpdateValues(vm, m, formatTrend)
  {
  }

  /** Updating twice from the same manager is the same as updating once. */
  lemma UpdateValuesIdempotent(vm: SettingsViewModel, m: Manager, formatTrend: int -> Option<string>)
    ensures UpdateValues(UpdateValues(vm, m, formatTrend), m, formatTrend) == UpdateValues(vm, m, formatTrend)
  {
  }

  /** The update depends on the previous view model only through its trend text. */
  lemma UpdateValuesForgetsThePast(vm1: SettingsViewModel, vm2: SettingsViewModel, m: Manager,
                                   formatTrend: int -> Option<string>)
    requires vm1.lastGlucoseTrendFormatted == vm2.lastGlucoseTrendFormatted
    ensures UpdateValues(vm1, m, formatTrend) == UpdateValues(vm2, m, formatTrend)
  {
  }

  /** `init(cgmManager:displayGlucoseUnitObservable:)`: a blank view model updated once. */
  function Initial(m: Manager, formatTrend: int -> Option<string>): (r: SettingsViewModel)
    ensures Mirrors(r, m)
    ensures TrendUpdated(None, r.lastGlucoseTrendFormatted, m, formatTrend)
    ensures r.lastGlucoseTrendFormatted.Some? <==>
              && m.latestReading.Some?
              && m.latestReading.value.trendRate.Some?
              && formatTrend(m.latestReading.value.trendRate.value).Some?
  {
    UpdateValues(Blank(), m, formatTrend)
  }

  /** `g7StateDidUpdate(_:)`: the new manager state passed in is ignored; the values are re-read. */
  function StateDidUpdate(vm: SettingsViewModel, m: Manager, formatTrend: int -> Option<string>,
                          state: Option<StateSnapshot.ManagerState>): (r: SettingsViewModel)
    ensures Mirrors(r, m)
    ensures TrendUpdated(vm.lastGlucoseTrendFormatted, r.lastGlucoseTrendFormatted, m, formatTrend)
  {
    UpdateValues(vm, m, formatTrend)
  }

  /** `g7ConnectionStatusDidChange()`. */
  function ConnectionStatusDidChange(vm: SettingsViewModel, m: Manager, formatTrend: int -> Option<string>): (r: SettingsViewModel)
    ensures Mirrors(r, m)
    ensures TrendUpdated(vm.lastGlucoseTrendFormatted, r.lastGlucoseTrendFormatted, m, formatTrend)
  {
    UpdateValues(vm, m, formatTrend)
  }

  /** Both observer callbacks behave exactly as `updateValues`, whatever state is passed. */
  lemma CallbacksAreUpdateValues(vm: SettingsViewModel, m: Manager, formatTrend: int -> Option<string>,
                                 state: Option<StateSnapshot.ManagerState>)
    ensures StateDidUpdate(vm, m, formatTrend, state) == UpdateValues(vm, m, formatTrend)
    ensures ConnectionStatusDidChange(vm, m, formatTrend) == UpdateValues(vm, m, formatTrend)
  {
    UpdateValuesIsDeterminedByItsContract(vm, m, formatTrend, StateDidUpdate(vm, m, formatTrend, state));
    UpdateValuesIsDeterminedByItsContract(vm, m, formatTrend, ConnectionStatusDidChange(vm, m, formatTrend));
  }
}
