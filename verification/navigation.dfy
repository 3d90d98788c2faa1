/**
 * The return-URL protocol shared by the create and edit forms of both
 * controllers. Entering a form remembers the page the user came from, unless
 * the previous submit asked to "do again" (create another, return to edit);
 * either way the "do again" flag is consumed. A submit without "do again"
 * redirects to the remembered page, so the page remembered when a flow began
 * survives any number of "do again" rounds.
 */
module Navigation {
  import opened Framework

  /**
   * The session after `create()` / `edit()`: `urlKey` holds `previous` unless
   * `flagKey` held the boolean true, and `flagKey` is gone.
   */
  function EnterForm(m: Store, urlKey: string, flagKey: string, previous: string): (m': Store)
    requires urlKey != flagKey
    ensures flagKey !in m'
    ensures !IsTrue(m, flagKey) ==> Lookup(m', urlKey) == Some(Text(previous))
    ensures IsTrue(m, flagKey) ==> Lookup(m', urlKey) == Lookup(m, urlKey)
    ensures forall k :: k != urlKey && k != flagKey ==> Lookup(m', k) == Lookup(m, k)
  {
    (if IsTrue(m, flagKey) then m else m[urlKey := Text(previous)]) - {flagKey}
  }

  /**
   * The session after `store()` / `update()` with the "do again" input: the
   * flag holds the boolean true and every other key is unchanged.
   */
  function RaiseFlag(m: Store, flagKey: string): (m': Store)
    ensures IsTrue(m', flagKey)
    ensures forall k :: k != flagKey ==> Lookup(m', k) == Lookup(m, k)
  {
    m[flagKey := Flag(true)]
  }

  /**
   * The session after one "do again" round per element of `pages`: the
   * submit raises the flag, then the form is entered again from `pages[i]`.
   */
  function AgainRounds(m: Store, urlKey: string, flagKey: string, pages: seq<string>): Store
    requires urlKey != flagKey
    decreases |pages|
  {
    if pages == [] then m
    else AgainRounds(EnterForm(RaiseFlag(m, flagKey), urlKey, flagKey, pages[0]), urlKey, flagKey, pages[1..])
  }

  /** "Do again" rounds never replace the remembered URL, and leave the flag consumed. */
  lemma {:induction false} AgainRoundsKeepUrl(m: Store, urlKey: string, flagKey: string, pages: seq<string>)
    requires urlKey != flagKey
    ensures Lookup(AgainRounds(m, urlKey, flagKey, pages), urlKey) == Lookup(m, urlKey)
    ensures pages != [] ==> flagKey !in AgainRounds(m, urlKey, flagKey, pages)
    ensures forall k :: k != urlKey && k != flagKey ==>
      Lookup(AgainRounds(m, urlKey, flagKey, pages), k) == Lookup(m, k)
    decreases |pages|
  {
    if pages != [] {
      var m1 := EnterForm(RaiseFlag(m, flagKey), urlKey, flagKey, pages[0]);
      assert IsTrue(RaiseFlag(m, flagKey), flagKey);
      AgainRoundsKeepUrl(m1, urlKey, flagKey, pages[1..]);
    }
  }

  /**
   * A flow that enters the form from `first` with no "do again" pending and
   * then loops any number of times still has `first` as its return URL,
   * whatever URL the session held before and whatever pages the later visits
   * came from.
   */
  lemma ReturnUrlIsFirstReferrer(m: Store, urlKey: string, flagKey: string, first: string, pages: seq<string>)
    requires urlKey != flagKey
    requires !IsTrue(m, flagKey)
    ensures Lookup(AgainRounds(EnterForm(m, urlKey, flagKey, first), urlKey, flagKey, pages), urlKey)
      == Some(Text(first))
  {
    var m0 := EnterForm(m, urlKey, flagKey, first);
    assert !IsTrue(m0, flagKey);
    AgainRoundsKeepUrl(m0, urlKey, flagKey, pages);
  }

  /**
   * The flag is consumed by a single visit: two visits without a submit in
   * between leave the second visit's page as the return URL, even if a
   * "do again" submit preceded the first visit.
   */
  lemma FlagConsumedOnce(m: Store, urlKey: string, flagKey: string, p1: string, p2: string)
    requires urlKey != flagKey
    ensures Lookup(EnterForm(EnterForm(m, urlKey, flagKey, p1), urlKey, flagKey, p2), urlKey) == Some(Text(p2))
  {
    assert !IsTrue(EnterForm(m, urlKey, flagKey, p1), flagKey);
  }
}
