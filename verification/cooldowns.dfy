/** Per-key countdown timers gating how often something may happen.
    utils/cooldowns.ts is not part of this model: `use(key, d)` is taken to
    start the key's timer at `d`, `update(delta)` to count every timer down by
    `delta`, and `canUse(key)` to hold once the timer has run out (or was never
    started). */
module Cooldowns {
  import opened Wrappers

  datatype Cooldowns = Cooldowns(timers: map<string, real>)

  /** What one tick of a system leaves: its cooldowns, which keep a use made
      before a pass that then throws, and the outcome of the pass. */
  datatype Tick<T> = Tick(cooldowns: Cooldowns, outcome: Result<T>)

  const Empty: Cooldowns := Cooldowns(map[])

  /** `cooldowns.add(key)`: register a key that can be used right away. */
  function Add(c: Cooldowns, key: string): (r: Cooldowns)
    ensures CanUse(r, key)
    ensures forall k :: k != key ==> (k in r.timers <==> k in c.timers)
  {
    Cooldowns(c.timers[key := 0.0])
  }

  predicate CanUse(c: Cooldowns, key: string) {
    key !in c.timers || c.timers[key] <= 0.0
  }

  function Use(c: Cooldowns, key: string, duration: real): (r: Cooldowns)
    ensures duration > 0.0 ==> !CanUse(r, key)
    ensures forall k :: k != key ==> CanUse(r, k) == CanUse(c, k)
  {
    Cooldowns(c.timers[key := duration])
  }

  function Update(c: Cooldowns, delta: real): (r: Cooldowns)
    ensures r.timers.Keys == c.timers.Keys
  {
    Cooldowns(map k | k in c.timers :: c.timers[k] - delta)
  }

  /** A timer started at `d` becomes usable again exactly when the elapsed
      time reaches `d`. */
  lemma UsableAfterDuration(c: Cooldowns, key: string, d: real, delta: real)
    ensures CanUse(Update(Use(c, key, d), delta), key) <==> delta >= d
  {
  }
}
