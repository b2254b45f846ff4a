/** The rule shared by both halves of the contact-sensor debouncer: a reading acts only
    when it differs from the level last settled on, and then becomes the settled level.
    The interrupt handler applies it to `current_hall_state` (and queues one dispatch per
    change); the dispatcher applies it to `previous_state` (and sends one On/Off command
    per change). These functions describe what the rule yields over a whole history of
    readings, so the class that runs the two halves can be tied to them. */
module Contact {

  datatype OnOffCommand = Off | On

  /** Contact closed (level true) switches the bound device OFF; contact open switches it ON. */
  function CommandFor(level: bool): (c: OnOffCommand)
    ensures c == Off <==> level
  {
    if level then Off else On
  }

  /** The level settled on after the first n readings: the last of them, or `start`. */
  function Before(start: bool, levels: seq<bool>, n: nat): bool
    requires n <= |levels|
  {
    if n == 0 then start else levels[n - 1]
  }

  /** The level settled on after all of `levels`. */
  function Settled(start: bool, levels: seq<bool>): bool
  {
    Before(start, levels, |levels|)
  }

  /** How many of the first n readings acted, i.e. differed from the level settled before them. */
  function ChangesUpTo(start: bool, levels: seq<bool>, n: nat): nat
    requires n <= |levels|
  {
    if n == 0 then 0
    else ChangesUpTo(start, levels, n - 1) + (if levels[n - 1] != Before(start, levels, n - 1) then 1 else 0)
  }

  function Changes(start: bool, levels: seq<bool>): nat
  {
    ChangesUpTo(start, levels, |levels|)
  }

  /** The commands the dispatcher sends over the first n readings: one per acting reading. */
  function CommandsUpTo(start: bool, levels: seq<bool>, n: nat): seq<OnOffCommand>
    requires n <= |levels|
  {
    if n == 0 then []
    else
      CommandsUpTo(start, levels, n - 1)
        + (if levels[n - 1] != Before(start, levels, n - 1) then [CommandFor(levels[n - 1])] else [])
  }

  function Commands(start: bool, levels: seq<bool>): seq<OnOffCommand>
  {
    CommandsUpTo(start, levels, |levels|)
  }

  /** Only the first n readings matter to what the rule yields over them. */
  lemma {:induction false} UpToAgree(start: bool, a: seq<bool>, b: seq<bool>, n: nat)
    requires n <= |a| && n <= |b|
    requires forall i :: 0 <= i < n ==> a[i] == b[i]
    ensures ChangesUpTo(start, a, n) == ChangesUpTo(start, b, n)
    ensures CommandsUpTo(start, a, n) == CommandsUpTo(start, b, n)
  {
    if n > 0 {
      UpToAgree(start, a, b, n - 1);
    }
  }

  /** One more reading: the history functions advance by exactly the rule's step. */
  lemma ReadingStep(start: bool, levels: seq<bool>, level: bool)
    ensures Settled(start, levels + [level]) == level
    ensures Changes(start, levels + [level])
              == Changes(start, levels) + (if level != Settled(start, levels) then 1 else 0)
    ensures Commands(start, levels + [level])
              == Commands(start, levels) + (if level != Settled(start, levels) then [CommandFor(level)] else [])
  {
    UpToAgree(start, levels, levels + [level], |levels|);
  }

  /** Reference count: the positions where the reading differs from its predecessor. */
  function Transitions(start: bool, levels: seq<bool>): nat
  {
    |set i | 0 <= i < |levels| && levels[i] != Before(start, levels, i)|
  }

  /** The rule acts exactly at the level transitions among the first n readings. */
  lemma {:induction false} ChangesUpToTransitions(start: bool, levels: seq<bool>, n: nat)
    requires n <= |levels|
    ensures ChangesUpTo(start, levels, n) == |set i | 0 <= i < n && levels[i] != Before(start, levels, i)|
  {
    if n > 0 {
      ChangesUpToTransitions(start, levels, n - 1);
      var t := set i | 0 <= i < n - 1 && levels[i] != Before(start, levels, i);
      var last := if levels[n - 1] != Before(start, levels, n - 1) then {n - 1} else {};
      assert (set i | 0 <= i < n && levels[i] != Before(start, levels, i)) == t + last;
      assert n - 1 !in t;
    }
  }

  /** The rule acts exactly at the level transitions of the history: every real change
      is counted once and repeated readings of one level never are. */
  lemma ChangesAreTransitions(start: bool, levels: seq<bool>)
    ensures Changes(start, levels) == Transitions(start, levels)
  {
    ChangesUpToTransitions(start, levels, |levels|);
  }

  /** Exactly one command is sent per change. */
  lemma {:induction false} CommandsPerChange(start: bool, levels: seq<bool>, n: nat)
    requires n <= |levels|
    ensures |CommandsUpTo(start, levels, n)| == ChangesUpTo(start, levels, n)
  {
    if n > 0 {
      CommandsPerChange(start, levels, n - 1);
    }
  }

  /** Commands alternate, starting with the one for leaving `start`; an odd number of
      them has been sent exactly when the settled level differs from `start`. */
  lemma {:induction false} CommandsAlternate(start: bool, levels: seq<bool>, n: nat)
    requires n <= |levels|
    ensures forall i :: 0 <= i < |CommandsUpTo(start, levels, n)| ==>
              CommandsUpTo(start, levels, n)[i] == CommandFor(if i % 2 == 0 then !start else start)
    ensures |CommandsUpTo(start, levels, n)| % 2 == 1 <==> Before(start, levels, n) != start
  {
    if n > 0 {
      CommandsAlternate(start, levels, n - 1);
    }
  }

  /** Running the rule over a + b is running it over a, then over b from where a settled. */
  lemma {:induction false} CommandsSplitUpTo(start: bool, a: seq<bool>, b: seq<bool>, k: nat)
    requires k <= |b|
    ensures CommandsUpTo(start, a + b, |a| + k) == Commands(start, a) + CommandsUpTo(Settled(start, a), b, k)
    ensures Before(start, a + b, |a| + k) == Before(Settled(start, a), b, k)
  {
    if k == 0 {
      UpToAgree(start, a, a + b, |a|);
    } else {
      CommandsSplitUpTo(start, a, b, k - 1);
      assert (a + b)[|a| + k - 1] == b[k - 1];
    }
  }

  lemma CommandsSplit(start: bool, a: seq<bool>, b: seq<bool>)
    ensures Commands(start, a + b) == Commands(start, a) + Commands(Settled(start, a), b)
    ensures Settled(start, a + b) == Settled(Settled(start, a), b)
  {
    CommandsSplitUpTo(start, a, b, |b|);
  }

  /** A bounce that repeats reading i leaves both the commands and the settled level
      unchanged. */
  lemma BounceIsHarmless(start: bool, levels: seq<bool>, i: nat)
    requires i < |levels|
    ensures Commands(start, levels[..i + 1] + levels[i..]) == Commands(start, levels)
    ensures Settled(start, levels[..i + 1] + levels[i..]) == Settled(start, levels)
  {
    var a, b, x := levels[..i + 1], levels[i + 1..], levels[i];
    assert levels[..i + 1] + levels[i..] == a + ([x] + b) by {
      assert levels[i..] == [x] + b;
    }
    assert levels == a + b;
    CommandsSplit(start, a, [x] + b);
    CommandsSplit(start, a, b);
    RepeatedReadingIsIgnored(x, b);
  }

  /** Reading the settled level again acts on nothing. */
  lemma RepeatedReadingIsIgnored(x: bool, b: seq<bool>)
    ensures Commands(x, [x] + b) == Commands(x, b)
    ensures Settled(x, [x] + b) == Settled(x, b)
  {
    assert Commands(x, [x]) == [] && Settled(x, [x]) == x by {
      assert |[x]| == 1 && [x][0] == x;
      assert CommandsUpTo(x, [x], 1) == CommandsUpTo(x, [x], 0);
    }
    CommandsSplit(x, [x], b);
  }

  /** The same for the number of changes: bounce never adds a dispatch. */
  lemma ChangesIgnoreBounce(start: bool, levels: seq<bool>, i: nat)
    requires i < |levels|
    ensures Changes(start, levels[..i + 1] + levels[i..]) == Changes(start, levels)
  {
    BounceIsHarmless(start, levels, i);
    var bounced := levels[..i + 1] + levels[i..];
    CommandsPerChange(start, bounced, |bounced|);
    CommandsPerChange(start, levels, |levels|);
  }
}
