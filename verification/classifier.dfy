/** The bot classifier: first registry entry whose pattern occurs in the user-agent. */
module Classifier {
  import opened Wrappers
  import opened Substring
  import opened BotConfig

  /** Index of the first entry at or after `from` whose pattern `ua` includes. */
  function FirstMatchFrom(registry: seq<Bot>, ua: string, from: nat): (r: Option<nat>)
    requires from <= |registry|
    ensures r.Some? ==> from <= r.value < |registry| && Includes(ua, registry[r.value].name)
    ensures r.Some? ==> forall j :: from <= j < r.value ==> !Includes(ua, registry[j].name)
    ensures r.None? ==> forall j :: from <= j < |registry| ==> !Includes(ua, registry[j].name)
    decreases |registry| - from
  {
    if from == |registry| then None
    else if Includes(ua, registry[from].name) then Some(from)
    else FirstMatchFrom(registry, ua, from + 1)
  }

  /** Index of the first entry whose pattern occurs in `ua`; none for an empty user-agent. */
  function FirstMatch(registry: seq<Bot>, ua: string): (r: Option<nat>)
    ensures ua == [] ==> r.None?
    ensures r.Some? ==> r.value < |registry| && Includes(ua, registry[r.value].name)
    ensures r.Some? ==> forall j :: 0 <= j < r.value ==> !Includes(ua, registry[j].name)
    ensures r.None? && ua != [] ==> forall j :: 0 <= j < |registry| ==> !Includes(ua, registry[j].name)
  {
    if ua == [] then None else FirstMatchFrom(registry, ua, 0)
  }

  /** `detectBot`: the entry found by the first-match scan, as a (name, limit) pair. */
  function DetectBot(registry: seq<Bot>, ua: string): (r: Option<Bot>)
    ensures ua == [] ==> r.None?
    ensures r.Some? <==> FirstMatch(registry, ua).Some?
    ensures r.Some? ==> r.value == registry[FirstMatch(registry, ua).value]
  {
    match FirstMatch(registry, ua)
    case None => None
    case Some(i) => Some(registry[i])
  }

  /** Against the reference notion of occurrence: for a non-empty user-agent, entry `i` is
      the one selected exactly when its pattern occurs and no earlier pattern does. */
  lemma FirstMatchIffOccurs(registry: seq<Bot>, ua: string, i: nat)
    requires ua != [] && i < |registry|
    ensures FirstMatch(registry, ua) == Some(i) <==>
      (Occurs(registry[i].name, ua) && forall j :: 0 <= j < i ==> !Occurs(registry[j].name, ua))
  {
  }

  /** Nothing is detected exactly when the user-agent is empty or no pattern occurs in it. */
  lemma NoMatchIffNoOccurrence(registry: seq<Bot>, ua: string)
    ensures DetectBot(registry, ua).None? <==>
      (ua == [] || forall j :: 0 <= j < |registry| ==> !Occurs(registry[j].name, ua))
  {
  }

  /** An earlier entry whose pattern is contained in a later entry's pattern shadows it:
      the later entry is never selected. */
  lemma Shadowed(registry: seq<Bot>, ua: string, i: nat, j: nat)
    requires i < j < |registry|
    requires Includes(registry[j].name, registry[i].name)
    ensures FirstMatch(registry, ua) != Some(j)
  {
    if FirstMatch(registry, ua) == Some(j) {
      IncludesTransitive(ua, registry[j].name, registry[i].name);
    }
  }
}
