/**
 * The animation settings chosen from the device: whether the user asked
 * for reduced motion, and whether the device looks low-end (little memory
 * or a slow connection). Durations are kept in milliseconds.
 */
module Performance {
  import opened Text

  /** `navigator.connection`; `effectiveType` may be missing. */
  datatype Connection = Connection(effectiveType: Option<string>)

  /** The parts of `navigator` read here; either may be missing. Device
      memory is in gigabytes and may be fractional. */
  datatype Navigator = Navigator(deviceMemory: Option<real>, connection: Option<Connection>)

  /** `memory && memory < 4`: a reported, non-zero amount below 4 GB. */
  predicate LowMemory(memory: Option<real>) {
    memory.Some? && memory.value != 0.0 && memory.value < 4.0
  }

  /** `connection && (effectiveType === '2g' || effectiveType === '3g')`. */
  predicate SlowConnection(connection: Option<Connection>) {
    connection.Some? && connection.value.effectiveType in {Some("2g"), Some("3g")}
  }

  /** `useLowEndDevice`: no navigator means not low-end; otherwise low
      memory is checked first, then the connection. */
  function IsLowEnd(nav: Option<Navigator>): (lowEnd: bool)
    ensures lowEnd <==> nav.Some? && (LowMemory(nav.value.deviceMemory) || SlowConnection(nav.value.connection))
  {
    if nav.None? then false
    else
      var memory := nav.value.deviceMemory;
      if memory.Some? && memory.value != 0.0 && memory.value < 4.0 then true
      else
        var connection := nav.value.connection;
        if connection.Some?
          && (connection.value.effectiveType == Some("2g") || connection.value.effectiveType == Some("3g"))
        then true
        else false
  }

  /** A reported memory of 0 is falsy and is ignored, and a missing
      connection decides nothing. */
  lemma ZeroMemoryIgnored(connection: Option<Connection>)
    ensures IsLowEnd(Some(Navigator(Some(0.0), connection))) <==> SlowConnection(connection)
    ensures !IsLowEnd(Some(Navigator(Some(0.0), None)))
  {
  }

  /** A 4g (or unreported) connection with at least 4 GB, or no memory
      report, is not low-end. */
  lemma FastDevice(memory: Option<real>, effectiveType: Option<string>)
    requires memory.None? || memory.value >= 4.0
    requires effectiveType !in {Some("2g"), Some("3g")}
    ensures !IsLowEnd(Some(Navigator(memory, Some(Connection(effectiveType)))))
  {
  }

  /** The value `useAnimationConfig` returns. */
  datatype AnimationConfig = AnimationConfig(shouldAnimate: bool, durationMs: nat, staggerMs: nat)

  function Config(reducedMotion: bool, lowEnd: bool): (c: AnimationConfig)
    ensures c.shouldAnimate <==> !reducedMotion && !lowEnd
    ensures c.durationMs == (if lowEnd then 300 else 800)
    ensures c.staggerMs == (if lowEnd then 0 else 15)
  {
    AnimationConfig(!reducedMotion && !lowEnd, if lowEnd then 300 else 800, if lowEnd then 0 else 15)
  }

  /** Whenever animations run they use the full duration and stagger; a
      low-end device gets shorter, unstaggered timings and no animation. */
  lemma ConfigConsistent(reducedMotion: bool, lowEnd: bool)
    ensures Config(reducedMotion, lowEnd).shouldAnimate ==>
      Config(reducedMotion, lowEnd).durationMs == 800 && Config(reducedMotion, lowEnd).staggerMs == 15
    ensures lowEnd ==>
      (!Config(reducedMotion, lowEnd).shouldAnimate
       && Config(reducedMotion, lowEnd).durationMs < Config(reducedMotion, false).durationMs)
  {
  }

  /** `window.matchMedia('(prefers-reduced-motion: reduce)')`: its current
      answer and whether it supports `addEventListener`. */
  datatype MediaQuery = MediaQuery(matches: bool, hasAddEventListener: bool)

  /** `useReducedMotion`'s state and its change listener. */
  class ReducedMotion {
    var reducedMotion: bool
    /** Whether a `change` listener was registered. */
    var listening: bool

    /** The initial value is the query's answer, or false without a window;
        the listener is only registered where `addEventListener` exists. */
    constructor (query: Option<MediaQuery>)
      ensures reducedMotion == (query.Some? && query.value.matches)
      ensures listening == (query.Some? && query.value.hasAddEventListener)
    {
      reducedMotion := query.Some? && query.value.matches;
      listening := query.Some? && query.value.hasAddEventListener;
    }

    /** A `change` event of the media query; without a listener nothing
        happens. */
    method Change(matches: bool)
      modifies this
      ensures listening == old(listening)
      ensures listening ==> reducedMotion == matches
      ensures !listening ==> reducedMotion == old(reducedMotion)
    {
      if listening {
        reducedMotion := matches;
      }
    }
  }
}
