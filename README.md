# Zicada sensor node: a Dafny model of the firmware core

Zicada is a battery-powered Zigbee end device. It reports temperature, humidity and
battery level, and it turns a bound device on or off when a magnet passes its hall sensor.
This project models the application logic of `firmware/src/main.c` and proves properties
of it. That logic consists of:

- the NiMH battery estimator and the battery-path arithmetic;
- the two halves of the contact-sensor debouncer;
- the connectivity supervisor;
- the self-rescheduling timers;
- the network-state LED.

Files:

- `cint.dfy`: the C integer widths the firmware relies on, and the conversions it
  performs between them.
- `battery.dfy`: the voltage/capacity table and the estimator, in two forms:
  - `Level`, a specification function;
  - `CalculateLevel`, the loop of `NiMH_CalculateLevel`, proved equal to `Level`.

  It also holds the ADC-to-millivolt and half-percent arithmetic, and the lemmas:
  clamping, exact values at breakpoints, bounds, monotonicity and an example.
- `contact.dfy`: the debounce rule over a whole history of pin readings:
  - the reference count `Transitions`;
  - the commands the rule yields;
  - the lemmas that the rule acts once per real transition, that commands alternate, and
    that a repeated (bouncing) reading is harmless.
- `stack.dfy`: the part of the ZBOSS stack the application sees:
  - pending alarms, as a map from callback to the multiset of delays it was scheduled
    with;
  - attribute writes;
  - the reporting configuration installed on each join.
- `zicada.dfy`: class `Sensor`.
  - Its fields are the static variables of `main.c` (`lastJoin`, `current_hall_state`,
    `previous_state`, `blink_status`) and the visible effects: the LED, the interrupt
    trigger, the pending alarms and queued callbacks, and the sent On/Off commands.
  - It also keeps ghost histories of the pin levels each debouncer half has read.
  - Each callback of `main.c` is a method that updates these fields as the C code does.
    Each states its whole new state, and the invariants its fields take part in.
  - `Valid()` joins the invariants of the debouncer halves, of the reporting log, and of
    the pending alarms: at most one LED-flash restore is pending, and every pending
    identify-blink alarm has the 100 ms period.
  - `Run`, `RunNextCallback` and `FireAlarm` stand for ZBOSS's cooperative scheduler
    running a queued callback or a fired alarm. `Deliver` stands for the stack or the
    hardware calling an entry point directly: the signal handler, the hall-sensor
    interrupt or the Identify callback. Together they show that `Valid()` survives every
    way the application's code is entered.

Inputs the firmware reads from the world are parameters of the methods. These are
`ZB_JOINED()`, the hall-sensor pin level, the ADC sample and the temperature and humidity
attribute values.

Three facts about the code that the model makes explicit:

- Every join edge schedules both samplers without looking at what is already pending
  (main.c:523, 529). A leave and rejoin before the first sampler alarm fires leaves two
  sampler chains pending; `Zicada.RejoinDoublesSamplerChains` shows this.
- `turn_off_led` restores the LED from the joined status without looking at identify
  mode (main.c:965-971).
- The interrupt is re-armed with `GPIO_INT_LEVEL_LOW` while `current_hall_state` is
  false and with `GPIO_INT_LEVEL_HIGH` otherwise (main.c:852-857). Which physical level
  that is depends on the pin polarity, which is left out.

## Model

| member | source | states |
|---|---|---|
| CInt.ToUint8 | firmware/src/main.c:470 | the value stored in a `zb_uint8_t` equals the input when it fits and is congruent to it mod 256 otherwise |
| CInt.ToUint16 | firmware/src/main.c:467 | passing the `int32_t` millivolts to the `uint16_t` parameter keeps the value when it fits and is congruent mod 65536 otherwise |
| Battery.VcPairsDescending | firmware/src/main.c:272-279 | the eight-row table is strictly descending in voltage, as the estimator assumes |
| Battery.FirstBelow | firmware/src/main.c:917-918 | the index the scan stops at is the first row whose voltage is below the input, or the table length when there is none |
| Battery.LevelAboveTable | firmware/src/main.c:918-921 | a voltage above the first row's voltage (1450) yields the first row's capacity (100) |
| Battery.LevelBelowTable | firmware/src/main.c:932-933 | a voltage not above the last row's voltage (900) yields the last row's capacity (0) |
| Battery.LevelBetweenRows | firmware/src/main.c:922-929 | a voltage strictly between rows i and i-1 is interpolated from row i, and the result lies within [cap[i], cap[i-1]] |
| Battery.LevelAtBreakpoint | firmware/src/main.c:917-933 | at each row's voltage the estimate is exactly that row's capacity |
| Battery.LevelBounds | firmware/src/main.c:909-934 | every estimate lies between the last and first capacities, i.e. in [0, 100] for the firmware's table |
| Battery.LevelMonotone | firmware/src/main.c:909-934 | the estimate never decreases as the voltage increases |
| Battery.LevelExample | firmware/src/main.c:924-928 | 1400 mV yields 92 + 50*8/100 = 96 |
| Battery.CalculateLevel | firmware/src/main.c:909-934 | the loop with its early returns and the `uint8_t` cast returns exactly the specified estimate `Level(VcPairs, voltage)` |
| Battery.AdcMillivolts | firmware/src/main.c:461-464 | the product `sample*600*6` fits an `int32_t`; the shift floors `sample*3600/2^14`; a 14-bit sample gives a value in [0, 3600) |
| Battery.AdcMillivoltsMonotone | firmware/src/main.c:461-464 | a larger sample never gives fewer millivolts |
| Battery.PercentageAttribute | firmware/src/main.c:470 | a level of at most 100 doubles without wrap-around to at most 200 half-percent units |
| Battery.BatteryAttribute | firmware/src/main.c:461-482 | the written `BatteryPercentageRemaining` value is even, at most 200, and exactly twice the estimate for the converted millivolts |
| Battery.BatteryAttributeMonotone | firmware/src/main.c:461-470 | a larger ADC sample never lowers the written battery attribute |
| Contact.CommandFor | firmware/src/main.c:887-896 | a true (closed) level selects OFF and a false (open) level selects ON |
| Contact.ReadingStep | firmware/src/main.c:841-849 | one more reading advances the settled level, the change count and the command list by exactly the rule's step (act only on a difference) |
| Contact.ChangesAreTransitions | firmware/src/main.c:841-849 | over any history, the number of readings the rule acts on equals the number of level transitions (the reference count) |
| Contact.CommandsPerChange | firmware/src/main.c:871-901 | exactly one command is sent per acting reading |
| Contact.CommandsAlternate | firmware/src/main.c:871-901 | commands alternate, starting with the one for leaving the start level; their count is odd exactly when the settled level differs from the start |
| Contact.CommandsSplit | firmware/src/main.c:871-901 | running the rule over a + b equals running it over a, then over b from where a settled |
| Contact.BounceIsHarmless | firmware/src/main.c:841-849 | repeating any reading in a history leaves the commands and the settled level unchanged |
| Contact.RepeatedReadingIsIgnored | firmware/src/main.c:871 | a reading equal to the settled level sends nothing and settles nowhere new |
| Contact.ChangesIgnoreBounce | firmware/src/main.c:841 | repeating any reading never adds a dispatch |
| Stack.Schedule | firmware/src/main.c:523 | scheduling an alarm adds exactly one pending alarm, with that delay, to its callback's pending multiset and leaves every other callback's alarms unchanged |
| Stack.CancelOne | firmware/src/main.c:876 | cancelling with `ZB_ALARM_ANY_PARAM` removes one pending alarm of that callback whatever its parameter, and nothing when none is pending; every other callback's alarms are unchanged |
| Stack.Expire | firmware/src/main.c:484-491 | a ZBOSS alarm is one-shot, which is why each timer callback schedules its next run: a fired alarm leaves the pending set, one fewer for its callback and the others unchanged |
| Stack.ReportingConfiguration | firmware/src/main.c:554-629 | three reports (temperature, humidity, battery percentage, in that order), each from endpoint 1 to the coordinator's endpoint 1, periodic under the ZCL rule (min 1, max 0xFFFE) with delta 0 |
| Stack.WholeRoundsAppend | firmware/src/main.c:519 | configuring reporting again keeps the reporting log made of whole rounds |
| Zicada.ArmedFor | firmware/src/main.c:851-858 | the re-armed trigger is never disabled; it is LEVEL_LOW exactly when the observed level is false |
| Zicada.Sensor.constructor | firmware/src/main.c:171 | all static state starts false or zero, the trigger is LEVEL_LOW and the LED on, nothing is pending or sent, and `Valid()` holds |
| Zicada.Sensor.HallSensorInterrupt | firmware/src/main.c:832-859 | a dispatch is queued iff the read level differs from `current_hall_state`; `current_hall_state` becomes the level; the interrupt is re-armed for it; the history invariant holds |
| Zicada.Sensor.CheckHallSensorAndSendCommand | firmware/src/main.c:865-903 | on a changed level: LED on, the pending flash restore replaced by one 500 ms alarm, exactly one command sent; otherwise the LED, alarms and commands are unchanged; `previous_state` becomes the level; at most one flash restore stays pending |
| Zicada.Sensor.TurnOffLed | firmware/src/main.c:965-971 | the LED ends on exactly when not joined |
| Zicada.Sensor.IdentifyCallback | firmware/src/main.c:778-797 | a start request queues one toggle and changes nothing else; an end request cancels one pending 100 ms toggle alarm and sets the LED on exactly when not joined |
| Zicada.Sensor.ToggleIdentifyLed | firmware/src/main.c:820-826 | the counter advances by one; the LED shows the parity of the new count; a 100 ms toggle alarm is added |
| Zicada.Sensor.SignalHandler | firmware/src/main.c:498-545 | `lastJoin` ends equal to the joined status. The join edge turns the LED off, sets the one-hour long poll, appends one reporting round and adds the 10 s and 60 s sampler alarms. The leave edge turns the LED on and adds the 30 s rejoin alarm. Otherwise nothing else changes |
| Zicada.Sensor.AttemptRejoin | firmware/src/main.c:940-959 | when joined nothing changes; otherwise the stack is woken once and a 5 min rejoin alarm is added |
| Zicada.Sensor.CheckTempHumidity | firmware/src/main.c:345-413 | writes the temperature then the humidity attribute, and adds a 5 min alarm only while joined |
| Zicada.Sensor.CheckBatteryLevel | firmware/src/main.c:425-492 | writes `BatteryAttribute(sample)` to the battery attribute, and adds a 6 h alarm only while joined |
| Zicada.Sensor.Run | firmware/src/main.c:865-903 | ZBOSS running any application callback (the dispatcher here, the LED callbacks or the timers) preserves `Valid()` and leaves the immediate-callback queue as it was |
| Zicada.Sensor.RunTimer | firmware/src/main.c:940-959 | ZBOSS running a sampler or rejoin callback keeps the alarm invariant and changes only the attribute log, the alarms and the wake-up count |
| Zicada.Sensor.RunIndicator | firmware/src/main.c:820-826 | ZBOSS running an LED callback keeps the alarm invariant and changes only the LED, the blink counter and the alarms |
| Zicada.Sensor.RunNextCallback | firmware/src/main.c:845 | ZBOSS runs the oldest queued callback, such as the dispatch queued here: exactly that entry leaves the queue and `Valid()` still holds |
| Zicada.Sensor.FireAlarm | firmware/src/main.c:882-884 | ZBOSS firing a pending alarm, such as this flash restore: `Valid()` still holds and the immediate-callback queue is as it was |
| Zicada.Sensor.Deliver | firmware/src/main.c:832-859 | an entry point called directly (this interrupt handler, the signal handler or the Identify callback) preserves `Valid()` |
| Zicada.Sensor.DeliverRequest | firmware/src/main.c:498-545 | the signal handler or the Identify callback keeps the alarm and reporting invariants |
| Zicada.FlashRestartKeepsAlarms | firmware/src/main.c:876-884 | cancelling the flash restore and scheduling a new one leaves exactly one 500 ms restore pending |
| Zicada.BlinkCancelEndsOneChain | firmware/src/main.c:787 | when every pending toggle alarm has the 100 ms period, the end request's cancel removes exactly one of them when any is pending, and none otherwise |
| Zicada.IdentifyRestartLeavesBlinkChain | firmware/src/main.c:780-790 | two start requests, the two toggles they queue, then one end request leave one toggle alarm pending: the LED keeps blinking |
| Zicada.SentCommandsAlternate | firmware/src/main.c:865-903 | over the node's life, one command was sent per transition of the levels the dispatcher read; they alternate OFF, ON, ... from the initial open contact; their count is odd exactly when `previous_state` is true |
| Zicada.DispatchesCountTransitions | firmware/src/main.c:832-849 | over the node's life, one dispatch was queued per transition of the levels the interrupt read; their count is odd exactly when `current_hall_state` is true |
| Zicada.RejoinDoublesSamplerChains | firmware/src/main.c:515-531 | join, leave and rejoin before any alarm fires leave two temperature/humidity alarms pending |

## Left out

- Temperature and humidity acquisition (main.c:348-360, 378-388): the HDC2080 driver and the `double` × 100 → `int16_t` conversion are floating point. The attribute values enter as `int16` parameters.
- SAADC driver configuration and triggering (main.c:430-458): hardware driver calls. The sample enters as a parameter.
- ZBOSS internals are recorded as effects with their key arguments only: attribute writes, reporting entries, poll intervals, On/Off commands and `user_input_indicate` calls. This covers `zb_zcl_set_attr_val`, `zb_zcl_put_reporting_info`, `ZB_ZCL_ON_OFF_SEND_REQ` and `zb_buf_get_out_delayed_ext`. Buffer management and `zigbee_default_signal_handler` are not modelled.
- Status codes from ZBOSS calls are not modelled. Every schedule succeeds, and a failed attribute write or report configuration only logs in the firmware.
- `ZB_MILLISECONDS_TO_BEACON_INTERVAL`: delays are kept in milliseconds, and alarm firing order by time is not modelled. Any pending alarm may fire next.
- `main()`, `configure_gpio`, `app_clusters_attr_init`, `button_handler`, factory reset and `start_identifying` (main.c:285-339, 635-772) are wiring over library calls. The constructor takes over only the interrupt and LED set-up of `configure_gpio`.
- `firmware/include/zb_zicada.h` holds only cluster and endpoint descriptor macros.
- Interrupt/task concurrency is modelled as interleaved, atomic method calls. A dispatcher reading the pin between the pin changing and the interrupt running is covered only as far as its reading is a parameter.
- Pin polarity (device tree) is not modelled: the level is the logical value returned by `gpio_pin_get_dt`. The interrupt handler may be called at any level, not only at the armed one.
- Zicada.Sensor.ToggleIdentifyLed: `blink_status` is an unbounded counter; the C `int` overflow after 2^31 toggles is not modelled.
- Stack.CancelOne: the model names the cancelled alarm by its delay, and ZBOSS's choice among several pending alarms of one callback is not modelled. The two callbacks the firmware cancels keep a single delay each (500 ms, 100 ms), as `AlarmsValid` states, so the choice does not matter there.
- Logging.
