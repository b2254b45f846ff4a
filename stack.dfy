/** What the application sees of the ZBOSS stack: the callbacks it schedules, the pending
    alarms, the attribute writes it makes and the reporting configuration it installs.
    The stack itself is not modelled; each call into it is recorded with its key arguments. */
module Stack {
  import opened CInt

  /** The application callbacks that go through ZBOSS's scheduler. */
  datatype Callback =
    | CheckTempHumidity
    | CheckBatteryLevel
    | AttemptRejoin
    | TurnOffLed
    | ToggleIdentifyLed
    | CheckHallSensor

  // Delays, in milliseconds, the firmware passes to ZB_SCHEDULE_APP_ALARM.
  const BatteryCheckPeriodMs: nat := 1000 * 60 * 60 * 6
  const BatteryCheckInitialDelayMs: nat := 1000 * 60 * 1
  const TempHumidityCheckPeriodMs: nat := 1000 * 60 * 5
  const TempHumidityCheckInitialDelayMs: nat := 1000 * 10
  const RejoinAttemptPeriodMs: nat := 1000 * 60 * 5
  const RejoinAttemptInitialDelayMs: nat := 1000 * 30
  const ContactLedIndicationDurationMs: nat := 500
  const IdentifyBlinkPeriodMs: nat := 100
  /** Long-poll interval set on joining: one hour. */
  const LongPollIntervalMs: nat := 3600 * 1000

  /** Pending alarms: for each callback, the multiset of delays it was scheduled with. */
  type Alarms = map<Callback, multiset<nat>>

  function Pending(alarms: Alarms, cb: Callback): multiset<nat>
  {
    if cb in alarms then alarms[cb] else multiset{}
  }

  /** ZB_SCHEDULE_APP_ALARM: adds one alarm, whatever is already pending. */
  function Schedule(alarms: Alarms, cb: Callback, delayMs: nat): (r: Alarms)
    ensures Pending(r, cb) == Pending(alarms, cb) + multiset{delayMs}
    ensures |Pending(r, cb)| == |Pending(alarms, cb)| + 1
    ensures forall c :: c != cb ==> Pending(r, c) == Pending(alarms, c)
  {
    alarms[cb := Pending(alarms, cb) + multiset{delayMs}]
  }

  /** ZB_SCHEDULE_APP_ALARM_CANCEL with ZB_ALARM_ANY_PARAM: cancels one pending alarm of
      `cb`, whatever its parameter, and nothing when none is pending. The model names the
      cancelled alarm by its delay; ZBOSS's choice among several pending ones is not modelled. */
  function CancelOne(alarms: Alarms, cb: Callback, delayMs: nat): (r: Alarms)
    ensures Pending(r, cb) == Pending(alarms, cb) - multiset{delayMs}
    ensures delayMs in Pending(alarms, cb) ==> |Pending(r, cb)| + 1 == |Pending(alarms, cb)|
    ensures delayMs !in Pending(alarms, cb) ==> r == alarms
    ensures forall c :: c != cb ==> Pending(r, c) == Pending(alarms, c)
  {
    if delayMs in Pending(alarms, cb) then alarms[cb := Pending(alarms, cb) - multiset{delayMs}]
    else alarms
  }

  /** A pending alarm is one-shot: when it fires it leaves the pending set. */
  function Expire(alarms: Alarms, cb: Callback, delayMs: nat): (r: Alarms)
    requires delayMs in Pending(alarms, cb)
    ensures Pending(r, cb) == Pending(alarms, cb) - multiset{delayMs}
    ensures |Pending(r, cb)| + 1 == |Pending(alarms, cb)|
    ensures forall c :: c != cb ==> Pending(r, c) == Pending(alarms, c)
  {
    alarms[cb := Pending(alarms, cb) - multiset{delayMs}]
  }

  // ---------------------------------------------------------------------------
  // ZCL attributes and attribute reporting

  datatype Attribute =
    | TemperatureMeasuredValue      // cluster 0x0402
    | HumidityMeasuredValue         // cluster 0x0405
    | BatteryPercentageRemaining    // Power Configuration cluster

  /** One zb_zcl_set_attr_val call on the source endpoint. */
  datatype AttributeWrite = AttributeWrite(attribute: Attribute, value: int)

  const SourceEndpoint: nat := 1
  const DestShortAddr: nat := 0x0000
  const DestEndpoint: nat := 1
  const RptMin: nat := 0x0001
  const RptMax: nat := 0xFFFE

  /** The fields of zb_zcl_reporting_info_t the firmware fills in. */
  datatype ReportingInfo = ReportingInfo(
    endpoint: nat, attribute: Attribute,
    dstShortAddr: nat, dstEndpoint: nat,
    minInterval: nat, maxInterval: nat, delta: nat)

  /** ZCL reporting rule: a maximum interval of 0xFFFF switches reports off, and one of
      0x0000 (with a minimum other than 0xFFFF) switches periodic reports off. */
  predicate ReportsPeriodically(info: ReportingInfo)
  {
    info.maxInterval != 0xFFFF && info.maxInterval != 0x0000 && info.minInterval <= info.maxInterval
  }

  function SendReport(attribute: Attribute): ReportingInfo
  {
    ReportingInfo(SourceEndpoint, attribute, DestShortAddr, DestEndpoint, RptMin, RptMax, 0)
  }

  /** What configure_attribute_reporting installs: temperature, humidity and battery
      percentage, each reported periodically to the coordinator's endpoint 1 with a
      reportable change of zero. */
  function ReportingConfiguration(): (infos: seq<ReportingInfo>)
    ensures |infos| == 3
    ensures infos[0].attribute == TemperatureMeasuredValue
    ensures infos[1].attribute == HumidityMeasuredValue
    ensures infos[2].attribute == BatteryPercentageRemaining
    ensures forall info :: info in infos ==>
              ReportsPeriodically(info) && info.minInterval == RptMin && info.maxInterval == RptMax
              && info.delta == 0 && info.endpoint == SourceEndpoint
              && info.dstShortAddr == DestShortAddr && info.dstEndpoint == DestEndpoint
  {
    [SendReport(TemperatureMeasuredValue), SendReport(HumidityMeasuredValue),
     SendReport(BatteryPercentageRemaining)]
  }

  /** A reporting log made of whole rounds of ReportingConfiguration(), one per join. */
  predicate WholeRounds(log: seq<ReportingInfo>)
  {
    |log| % 3 == 0 && forall i :: 0 <= i < |log| ==> log[i] == ReportingConfiguration()[i % 3]
  }

  /** Appending another round keeps the log made of whole rounds. */
  lemma WholeRoundsAppend(log: seq<ReportingInfo>)
    requires WholeRounds(log)
    ensures WholeRounds(log + ReportingConfiguration())
  {
    var r := ReportingConfiguration();
    forall i | |log| <= i < |log| + 3
      ensures (log + r)[i] == r[i % 3]
    {
      assert i % 3 == i - |log| by {
        assert (i - |log|) % 3 == i - |log|;
        assert |log| % 3 == 0;
      }
    }
  }
}
