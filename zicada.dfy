/** The application logic of the Zicada sensor node: the static state of main.c and the
    callbacks that run on ZBOSS's single cooperative queue, together with the effects they
    have on the network-state LED, the interrupt trigger and the stack. Readings of
    ZB_JOINED(), of the hall-sensor pin and of the sensors are parameters. */
module Zicada {
  import opened CInt
  import opened Battery
  import opened Contact
  import opened Stack

  /** Interrupt configuration of the hall-sensor pin. */
  datatype Trigger = Disabled | LevelLow | LevelHigh

  /** The trigger the interrupt is re-armed with once the handler has observed `observed`:
      LEVEL_LOW while it is false, LEVEL_HIGH while it is true. */
  function ArmedFor(observed: bool): (t: Trigger)
    ensures t != Disabled
    ensures t == LevelLow <==> !observed
  {
    if observed then LevelHigh else LevelLow
  }

  /** At most one LED-flash restore is pending, and every pending blink alarm has the
      100 ms period. */
  ghost predicate SingleFlashUniformBlink(alarms: Alarms)
  {
    && Pending(alarms, TurnOffLed) <= multiset{ContactLedIndicationDurationMs}
    && Pending(alarms, ToggleIdentifyLed)[IdentifyBlinkPeriodMs] == |Pending(alarms, ToggleIdentifyLed)|
  }

  /** An alarm firing removes it, which keeps both alarm facts. */
  lemma ExpireKeepsAlarms(alarms: Alarms, cb: Callback, delayMs: nat)
    requires SingleFlashUniformBlink(alarms) && delayMs in Pending(alarms, cb)
    ensures SingleFlashUniformBlink(Expire(alarms, cb, delayMs))
  {
  }

  /** Scheduling anything but the flash restore, and blink alarms only with the blink
      period, keeps both alarm facts. */
  lemma ScheduleKeepsAlarms(alarms: Alarms, cb: Callback, delayMs: nat)
    requires SingleFlashUniformBlink(alarms) && cb != TurnOffLed
    requires cb == ToggleIdentifyLed ==> delayMs == IdentifyBlinkPeriodMs
    ensures SingleFlashUniformBlink(Schedule(alarms, cb, delayMs))
  {
  }

  /** Restarting the flash (cancel one restore, schedule a new one) leaves exactly one
      restore pending. */
  lemma FlashRestartKeepsAlarms(alarms: Alarms)
    requires SingleFlashUniformBlink(alarms)
    ensures var r := Schedule(CancelOne(alarms, TurnOffLed, ContactLedIndicationDurationMs),
                              TurnOffLed, ContactLedIndicationDurationMs);
      SingleFlashUniformBlink(r) && Pending(r, TurnOffLed) == multiset{ContactLedIndicationDurationMs}
  {
  }

  /** Cancelling one 100 ms blink alarm ends exactly one blink chain when any is pending:
      since every pending blink alarm has that period, one of them is always the one found. */
  lemma BlinkCancelEndsOneChain(alarms: Alarms)
    requires SingleFlashUniformBlink(alarms)
    ensures var r := CancelOne(alarms, ToggleIdentifyLed, IdentifyBlinkPeriodMs);
      && SingleFlashUniformBlink(r)
      && |Pending(r, ToggleIdentifyLed)| == if |Pending(alarms, ToggleIdentifyLed)| == 0 then 0
                                            else |Pending(alarms, ToggleIdentifyLed)| - 1
  {
  }

  /** What the callbacks read from the world when the scheduler runs them. */
  datatype Environment = Environment(
    joined: bool, pin: bool, temperature: int16, humidity: int16, adcSample: uint16)

  /** What enters the application other than through the callback queue and alarms:
      stack signals, hall-sensor interrupts and Identify cluster requests. */
  datatype Event =
    | StackSignal(joinedNow: bool)
    | PinInterrupt(level: bool)
    | IdentifyRequest(starting: bool, joinedNow: bool)

  class Sensor {
    // Effects visible outside the application.
    var led: bool                          // ZIGBEE_NETWORK_STATE_LED, true = on
    var trigger: Trigger                   // hall-sensor interrupt configuration
    var alarms: Alarms                     // ZB_SCHEDULE_APP_ALARM entries not yet fired
    var callbacks: seq<Callback>           // ZB_SCHEDULE_APP_CALLBACK entries not yet run
    var sent: seq<OnOffCommand>            // On/Off commands handed to the stack
    var attributes: seq<AttributeWrite>    // zb_zcl_set_attr_val calls
    var reporting: seq<ReportingInfo>      // zb_zcl_put_reporting_info calls
    var pollIntervals: seq<nat>            // zb_zdo_pim_set_long_poll_interval calls
    var wakeUps: nat                       // user_input_indicate calls

    // Static variables of main.c.
    var lastJoin: bool
    var currentHallState: bool
    var previousState: bool
    var blinkStatus: nat

    // History of the debouncer, for stating what it has done overall.
    ghost var interruptReads: seq<bool>
    ghost var dispatches: nat
    ghost var dispatcherReads: seq<bool>

    ghost predicate Valid()
      reads this`trigger, this`currentHallState, this`interruptReads, this`dispatches
      reads this`previousState, this`sent, this`dispatcherReads, this`alarms, this`reporting
    {
      InterruptValid() && DispatcherValid() && AlarmsValid() && ReportingValid()
    }

    /** The interrupt handler has applied the debounce rule to every level it read, and
        the interrupt is armed for the level it last observed. */
    ghost predicate InterruptValid()
      reads this`trigger, this`currentHallState, this`interruptReads, this`dispatches
    {
      && trigger == ArmedFor(currentHallState)
      && currentHallState == Settled(false, interruptReads)
      && dispatches == Changes(false, interruptReads)
    }

    /** The dispatcher has applied the debounce rule to every level it read, and sent
        exactly the commands the rule yields. */
    ghost predicate DispatcherValid()
      reads this`previousState, this`sent, this`dispatcherReads
    {
      previousState == Settled(false, dispatcherReads) && sent == Commands(false, dispatcherReads)
    }

    /** The alarm facts of SingleFlashUniformBlink hold of the pending alarms. */
    ghost predicate AlarmsValid()
      reads this`alarms
    {
      SingleFlashUniformBlink(alarms)
    }

    /** Reporting has been configured in whole rounds, one per join. */
    ghost predicate ReportingValid()
      reads this`reporting
    {
      WholeRounds(reporting)
    }

    /** Start-up: the static initialisers, plus what configure_gpio sets up for the
        core (interrupt armed on LEVEL_LOW, LED on until the network is joined). */
    constructor ()
      ensures Valid()
      ensures !lastJoin && !currentHallState && !previousState && blinkStatus == 0
      ensures trigger == LevelLow && led
      ensures alarms == map[] && callbacks == [] && sent == []
      ensures attributes == [] && reporting == [] && pollIntervals == [] && wakeUps == 0
      ensures interruptReads == [] && dispatcherReads == [] && dispatches == 0
    {
      led, trigger := true, LevelLow;
      alarms, callbacks, sent := map[], [], [];
      attributes, reporting, pollIntervals, wakeUps := [], [], [], 0;
      lastJoin, currentHallState, previousState, blinkStatus := false, false, false, 0;
      interruptReads, dispatches, dispatcherReads := [], 0, [];
    }

    // -------------------------------------------------------------------------
    // Contact-sensor debouncer

    /** hall_sensor_interrupt_callback: disable the interrupt, read the pin, queue one
        dispatch if the level differs from the one last observed, and re-arm. */
    method HallSensorInterrupt(level: bool)
      requires InterruptValid()
      modifies this`currentHallState, this`trigger, this`callbacks, this`interruptReads, this`dispatches
      ensures InterruptValid()
      ensures currentHallState == level && trigger == ArmedFor(level)
      ensures callbacks == old(callbacks) + (if level != old(currentHallState) then [Callback.CheckHallSensor] else [])
      ensures interruptReads == old(interruptReads) + [level]
    {
      trigger := Disabled;
      ReadingStep(false, interruptReads, level);
      interruptReads := interruptReads + [level];
      var newState := level;
      if newState != currentHallState {
        currentHallState := newState;
        callbacks := callbacks + [Callback.CheckHallSensor];
        dispatches := dispatches + 1;
      }
      if !currentHallState {
        trigger := LevelLow;
      } else {
        trigger := LevelHigh;
      }
    }

    /** check_hall_sensor_and_send_command: re-read the pin; on a change from the level
        last acted upon, restart the LED flash and send exactly one On/Off command. */
    method CheckHallSensorAndSendCommand(level: bool)
      requires DispatcherValid() && AlarmsValid()
      modifies this`previousState, this`led, this`alarms, this`sent, this`dispatcherReads
      ensures DispatcherValid() && AlarmsValid()
      ensures previousState == level
      ensures dispatcherReads == old(dispatcherReads) + [level]
      ensures level != old(previousState) ==>
                led && sent == old(sent) + [CommandFor(level)]
                && alarms == Schedule(CancelOne(old(alarms), Callback.TurnOffLed, ContactLedIndicationDurationMs),
                                      Callback.TurnOffLed, ContactLedIndicationDurationMs)
      ensures level == old(previousState) ==>
                led == old(led) && sent == old(sent) && alarms == old(alarms)
    {
      ReadingStep(false, dispatcherReads, level);
      dispatcherReads := dispatcherReads + [level];
      var currentState := level;
      if currentState != previousState {
        FlashRestartKeepsAlarms(alarms);
        alarms := CancelOne(alarms, Callback.TurnOffLed, ContactLedIndicationDurationMs);
        led := true;
        alarms := Schedule(alarms, Callback.TurnOffLed, ContactLedIndicationDurationMs);
        var cmd := if currentState then Off else On;
        sent := sent + [cmd];
        previousState := currentState;
      }
    }

    // -------------------------------------------------------------------------
    // Indicator

    /** turn_off_led: when the contact flash ends, show the network state again. */
    method TurnOffLed(joinedNow: bool)
      modifies this`led
      ensures led == !joinedNow
    {
      if joinedNow {
        led := false;
      } else {
        led := true;
      }
    }

    /** identify_cb: a start request (non-zero buffer) queues the blinking; an end request
        cancels one pending blink alarm and shows the network state again. */
    method IdentifyCallback(starting: bool, joinedNow: bool)
      requires AlarmsValid()
      modifies this`callbacks, this`alarms, this`led
      ensures AlarmsValid()
      ensures starting ==>
                callbacks == old(callbacks) + [Callback.ToggleIdentifyLed] && alarms == old(alarms) && led == old(led)
      ensures !starting ==>
                callbacks == old(callbacks) && led == !joinedNow
                && alarms == CancelOne(old(alarms), Callback.ToggleIdentifyLed, IdentifyBlinkPeriodMs)
    {
      if starting {
        callbacks := callbacks + [Callback.ToggleIdentifyLed];
      } else {
        BlinkCancelEndsOneChain(alarms);
        alarms := CancelOne(alarms, Callback.ToggleIdentifyLed, IdentifyBlinkPeriodMs);
        if joinedNow {
          led := false;
        } else {
          led := true;
        }
      }
    }

    /** toggle_identify_led: advance the blink counter, show its parity on the LED and
        come back in 100 ms. */
    method ToggleIdentifyLed()
      requires AlarmsValid()
      modifies this`blinkStatus, this`led, this`alarms
      ensures AlarmsValid()
      ensures blinkStatus == old(blinkStatus) + 1
      ensures led <==> old(blinkStatus) % 2 == 0
      ensures alarms == Schedule(old(alarms), Callback.ToggleIdentifyLed, IdentifyBlinkPeriodMs)
    {
      blinkStatus := blinkStatus + 1;
      led := blinkStatus % 2 != 0;
      ScheduleKeepsAlarms(alarms, Callback.ToggleIdentifyLed, IdentifyBlinkPeriodMs);
      alarms := Schedule(alarms, Callback.ToggleIdentifyLed, IdentifyBlinkPeriodMs);
    }

    // -------------------------------------------------------------------------
    // Connectivity supervisor

    /** zboss_signal_handler: act only on an edge of the joined status. */
    method SignalHandler(joinedNow: bool)
      requires AlarmsValid() && ReportingValid()
      modifies this`lastJoin, this`led, this`alarms, this`reporting, this`pollIntervals
      ensures AlarmsValid() && ReportingValid()
      ensures lastJoin == joinedNow
      ensures !old(lastJoin) && joinedNow ==>
                !led
                && pollIntervals == old(pollIntervals) + [LongPollIntervalMs]
                && reporting == old(reporting) + ReportingConfiguration()
                && alarms == Schedule(Schedule(old(alarms), Callback.CheckTempHumidity, TempHumidityCheckInitialDelayMs),
                                      Callback.CheckBatteryLevel, BatteryCheckInitialDelayMs)
      ensures old(lastJoin) && !joinedNow ==>
                led
                && pollIntervals == old(pollIntervals) && reporting == old(reporting)
                && alarms == Schedule(old(alarms), Callback.AttemptRejoin, RejoinAttemptInitialDelayMs)
      ensures old(lastJoin) == joinedNow ==>
                led == old(led) && alarms == old(alarms)
                && reporting == old(reporting) && pollIntervals == old(pollIntervals)
    {
      var thisJoin := joinedNow;
      if !lastJoin && thisJoin {
        led := false;
        pollIntervals := pollIntervals + [LongPollIntervalMs];
        WholeRoundsAppend(reporting);
        reporting := reporting + ReportingConfiguration();
        ScheduleKeepsAlarms(alarms, Callback.CheckTempHumidity, TempHumidityCheckInitialDelayMs);
        alarms := Schedule(alarms, Callback.CheckTempHumidity, TempHumidityCheckInitialDelayMs);
        ScheduleKeepsAlarms(alarms, Callback.CheckBatteryLevel, BatteryCheckInitialDelayMs);
        alarms := Schedule(alarms, Callback.CheckBatteryLevel, BatteryCheckInitialDelayMs);
      } else if lastJoin && !thisJoin {
        led := true;
        ScheduleKeepsAlarms(alarms, Callback.AttemptRejoin, RejoinAttemptInitialDelayMs);
        alarms := Schedule(alarms, Callback.AttemptRejoin, RejoinAttemptInitialDelayMs);
      }
      lastJoin := thisJoin;
    }

    /** attempt_rejoin: while not joined, nudge the stack and retry every five minutes;
        once joined, stop. */
    method AttemptRejoin(joinedNow: bool)
      requires AlarmsValid()
      modifies this`alarms, this`wakeUps
      ensures AlarmsValid()
      ensures joinedNow ==> alarms == old(alarms) && wakeUps == old(wakeUps)
      ensures !joinedNow ==>
                wakeUps == old(wakeUps) + 1
                && alarms == Schedule(old(alarms), Callback.AttemptRejoin, RejoinAttemptPeriodMs)
    {
      if !joinedNow {
        wakeUps := wakeUps + 1;
        ScheduleKeepsAlarms(alarms, Callback.AttemptRejoin, RejoinAttemptPeriodMs);
        alarms := Schedule(alarms, Callback.AttemptRejoin, RejoinAttemptPeriodMs);
      }
    }

    // -------------------------------------------------------------------------
    // Telemetry samplers

    /** check_temp_humidity: write both measured values (already in ZCL units), then
        reschedule in five minutes only while joined. */
    method CheckTempHumidity(temperature: int16, humidity: int16, joinedNow: bool)
      requires AlarmsValid()
      modifies this`attributes, this`alarms
      ensures AlarmsValid()
      ensures attributes == old(attributes)
                + [AttributeWrite(TemperatureMeasuredValue, temperature),
                   AttributeWrite(HumidityMeasuredValue, humidity)]
      ensures alarms == if joinedNow then Schedule(old(alarms), Callback.CheckTempHumidity, TempHumidityCheckPeriodMs)
                        else old(alarms)
    {
      attributes := attributes + [AttributeWrite(TemperatureMeasuredValue, temperature)];
      attributes := attributes + [AttributeWrite(HumidityMeasuredValue, humidity)];
      if joinedNow {
        ScheduleKeepsAlarms(alarms, Callback.CheckTempHumidity, TempHumidityCheckPeriodMs);
        alarms := Schedule(alarms, Callback.CheckTempHumidity, TempHumidityCheckPeriodMs);
      }
    }

    /** check_battery_level: convert the ADC sample to millivolts, estimate the capacity,
        write it in half-percent units, then reschedule in six hours only while joined. */
    method CheckBatteryLevel(sample: uint16, joinedNow: bool)
      requires AlarmsValid()
      modifies this`attributes, this`alarms
      ensures AlarmsValid()
      ensures attributes == old(attributes) + [AttributeWrite(BatteryPercentageRemaining, BatteryAttribute(sample))]
      ensures alarms == if joinedNow then Schedule(old(alarms), Callback.CheckBatteryLevel, BatteryCheckPeriodMs)
                        else old(alarms)
    {
      var adcMv := AdcMillivolts(sample);
      var batteryLevel := CalculateLevel(ToUint16(adcMv));
      var percentageAttribute := PercentageAttribute(batteryLevel);
      attributes := attributes + [AttributeWrite(BatteryPercentageRemaining, percentageAttribute)];
      if joinedNow {
        ScheduleKeepsAlarms(alarms, Callback.CheckBatteryLevel, BatteryCheckPeriodMs);
        alarms := Schedule(alarms, Callback.CheckBatteryLevel, BatteryCheckPeriodMs);
      }
    }

    // -------------------------------------------------------------------------
    // The stack's scheduler, as the environment of the callbacks above

    /** Run one callback with the readings `env` supplies. */
    method Run(cb: Callback, env: Environment)
      requires Valid()
      modifies this
      ensures Valid()
      ensures callbacks == old(callbacks)
    {
      if cb.CheckTempHumidity? || cb.CheckBatteryLevel? || cb.AttemptRejoin? {
        RunTimer(cb, env);
      } else if cb.TurnOffLed? || cb.ToggleIdentifyLed? {
        RunIndicator(cb, env);
      } else {
        CheckHallSensorAndSendCommand(env.pin);
      }
    }

    /** The self-rescheduling timers: the two samplers and the rejoin attempt. */
    method RunTimer(cb: Callback, env: Environment)
      requires AlarmsValid() && (cb.CheckTempHumidity? || cb.CheckBatteryLevel? || cb.AttemptRejoin?)
      modifies this`attributes, this`alarms, this`wakeUps
      ensures AlarmsValid()
    {
      match cb {
        case CheckTempHumidity => CheckTempHumidity(env.temperature, env.humidity, env.joined);
        case CheckBatteryLevel => CheckBatteryLevel(env.adcSample, env.joined);
        case AttemptRejoin => AttemptRejoin(env.joined);
      }
    }

    /** The callbacks that drive the LED. */
    method RunIndicator(cb: Callback, env: Environment)
      requires AlarmsValid() && (cb.TurnOffLed? || cb.ToggleIdentifyLed?)
      modifies this`led, this`blinkStatus, this`alarms
      ensures AlarmsValid()
    {
      match cb {
        case TurnOffLed => TurnOffLed(env.joined);
        case ToggleIdentifyLed => ToggleIdentifyLed();
      }
    }

    /** The scheduler takes the oldest queued callback off the queue and runs it. */
    method RunNextCallback(env: Environment)
      requires Valid() && callbacks != []
      modifies this
      ensures Valid()
      ensures callbacks == old(callbacks[1..])
    {
      var cb := callbacks[0];
      callbacks := callbacks[1..];
      Run(cb, env);
    }

    /** The stack or the hardware calls one of the application's entry points. */
    method Deliver(e: Event)
      requires Valid()
      modifies this
      ensures Valid()
    {
      if e.PinInterrupt? {
        HallSensorInterrupt(e.level);
      } else {
        DeliverRequest(e);
      }
    }

    /** The entry points the stack calls: the signal handler and the Identify callback. */
    method DeliverRequest(e: Event)
      requires AlarmsValid() && ReportingValid() && !e.PinInterrupt?
      modifies this`lastJoin, this`led, this`alarms, this`reporting, this`pollIntervals, this`callbacks
      ensures AlarmsValid() && ReportingValid()
    {
      match e {
        case StackSignal(joinedNow) => SignalHandler(joinedNow);
        case IdentifyRequest(starting, joinedNow) => IdentifyCallback(starting, joinedNow);
      }
    }

    /** A pending alarm expires: it leaves the pending set and its callback runs. */
    method FireAlarm(cb: Callback, delayMs: nat, env: Environment)
      requires Valid() && delayMs in Pending(alarms, cb)
      modifies this
      ensures Valid()
      ensures callbacks == old(callbacks)
    {
      ExpireKeepsAlarms(alarms, cb, delayMs);
      alarms := Expire(alarms, cb, delayMs);
      Run(cb, env);
    }
  }

  /** Over the sensor's whole life the dispatcher has sent one command per transition of
      the levels it read, alternating OFF, ON, OFF, ... from the initial open contact, and
      an odd number of them exactly when it last acted on a closed contact. */
  lemma SentCommandsAlternate(s: Sensor)
    requires s.Valid()
    ensures |s.sent| == Transitions(false, s.dispatcherReads)
    ensures forall i :: 0 <= i < |s.sent| ==> s.sent[i] == (if i % 2 == 0 then Off else On)
    ensures |s.sent| % 2 == 1 <==> s.previousState
  {
    CommandsPerChange(false, s.dispatcherReads, |s.dispatcherReads|);
    ChangesAreTransitions(false, s.dispatcherReads);
    CommandsAlternate(false, s.dispatcherReads, |s.dispatcherReads|);
  }

  /** Over the sensor's whole life the interrupt handler has queued one dispatch per
      transition of the levels it read, and an odd number of them exactly when the level
      it last observed is a closed contact. */
  lemma DispatchesCountTransitions(s: Sensor)
    requires s.Valid()
    ensures s.dispatches == Transitions(false, s.interruptReads)
    ensures s.dispatches % 2 == 1 <==> s.currentHallState
  {
    ChangesAreTransitions(false, s.interruptReads);
    CommandsPerChange(false, s.interruptReads, |s.interruptReads|);
    CommandsAlternate(false, s.interruptReads, |s.interruptReads|);
  }

  /** Joining, leaving and rejoining before the first sampler alarm fires leaves two
      temperature/humidity chains pending: the join edge schedules without looking at
      what is already pending. */
  method RejoinDoublesSamplerChains() returns (chains: nat)
    ensures chains == 2
  {
    var s := new Sensor();
    s.SignalHandler(true);
    s.SignalHandler(false);
    s.SignalHandler(true);
    chains := |Pending(s.alarms, CheckTempHumidity)|;
  }

  /** Two Identify start requests queue two toggles, and running them starts two blink
      chains; the end request cancels one 100 ms alarm, so one chain keeps blinking. */
  method IdentifyRestartLeavesBlinkChain() returns (chains: nat)
    ensures chains == 1
  {
    var s := new Sensor();
    s.IdentifyCallback(true, false);
    s.IdentifyCallback(true, false);
    s.ToggleIdentifyLed();
    s.ToggleIdentifyLed();
    s.IdentifyCallback(false, false);
    chains := |Pending(s.alarms, ToggleIdentifyLed)|;
  }
}
