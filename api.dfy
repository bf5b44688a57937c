/**
 * APIManager.java: the registry through which other plugins add economy
 * providers under a name. Names are stored upper-cased and trimmed; the
 * built-in provider names, blank names, missing providers and names already
 * taken are refused, and a refused registration leaves the registry alone.
 *
 * A provider is an opaque handle; Java's null name or provider is `None`.
 */
module Api {
  import opened Wrappers
  import opened Text

  type ProviderId = nat

  /** The form a name is stored and looked up under: `toUpperCase().trim()`. */
  function Normalise(name: string): string {
    Trim(ToUpper(name))
  }

  /** Normalising twice is normalising once, so a stored name finds itself. */
  lemma NormaliseIdempotent(name: string)
    ensures Normalise(Normalise(name)) == Normalise(name)
  {
    var u := ToUpper(name);
    var front := TrimStart(u);
    var t := TrimEnd(front);
    TrimStartShape(u);
    TrimEndShape(front);
    forall i | 0 <= i < |t|
      ensures UpperChar(t[i]) == t[i]
    {
      assert t[i] == front[i] == u[|u| - |front| + i];
      UpperTwice(name[|u| - |front| + i]);
    }
    UpperFixed(t);
    if |t| > 0 {
      assert t[0] == front[0];
    }
    TrimOfTrimmed(t);
  }

  lemma UpperTwice(c: char)
    ensures UpperChar(UpperChar(c)) == UpperChar(c)
  {
  }

  lemma UpperFixed(t: string)
    requires forall i :: 0 <= i < |t| ==> UpperChar(t[i]) == t[i]
    ensures ToUpper(t) == t
  {
    var r := ToUpper(t);
    assert |r| == |t|;
    assert forall i :: 0 <= i < |t| ==> r[i] == t[i];
  }

  /** Upper-casing never turns padding into text or text into padding. */
  lemma UpperKeepsPadding(c: char)
    ensures IsTrimmable(UpperChar(c)) == IsTrimmable(c)
  {
  }

  /** A name is blank, in the sense of `trim().isEmpty()`, exactly when its normal form is empty. */
  lemma {:induction false} BlankIffNormalEmpty(name: string)
    ensures (Trim(name) == []) == (Normalise(name) == [])
  {
    var u := ToUpper(name);
    forall i | 0 <= i < |name|
      ensures IsTrimmable(u[i]) == IsTrimmable(name[i])
    {
      UpperKeepsPadding(name[i]);
    }
    AllPaddingAgree(name, u);
  }

  lemma {:induction false} AllPaddingAgree(s: string, u: string)
    requires |s| == |u|
    requires forall i :: 0 <= i < |s| ==> IsTrimmable(u[i]) == IsTrimmable(s[i])
    ensures (Trim(s) == []) == (Trim(u) == [])
  {
    if Trim(s) == [] {
      AllPaddingWhenTrimEmpty(s);
      TrimEndAllPadding(u);
    }
    if Trim(u) == [] {
      AllPaddingWhenTrimEmpty(u);
      TrimEndAllPadding(s);
    }
  }

  lemma AllPaddingWhenTrimEmpty(s: string)
    requires Trim(s) == []
    ensures forall i :: 0 <= i < |s| ==> IsTrimmable(s[i])
  {
    var front := TrimStart(s);
    TrimStartShape(s);
    TrimEndShape(front);
    assert |front| == 0;
  }

  /** `isBuiltInProvider`: the names reserved for the providers shipped with the plugin. */
  predicate IsBuiltIn(name: string) {
    name in {"VAULT", "PLAYER_POINTS", "PLAYERPOINTS", "TOKEN_MANAGER", "TOKENMANAGER", "COINSENGINE"}
  }

  /** Why a registration is refused, if it is. */
  datatype Registration = Accepted | MissingNameOrProvider | Reserved | AlreadyRegistered

  /** The checks of `registerEconomyProvider`, in their order. */
  function Classify(providers: map<string, ProviderId>, name: Option<string>, provider: Option<ProviderId>): (r: Registration)
    ensures r == Accepted <==>
      name.Some? && provider.Some? && Normalise(name.value) != [] &&
      !IsBuiltIn(Normalise(name.value)) && Normalise(name.value) !in providers
  {
    BlankIffNormalEmptyOpt(name);
    if name.None? || Trim(name.value) == [] || provider.None? then MissingNameOrProvider
    else if IsBuiltIn(Normalise(name.value)) then Reserved
    else if Normalise(name.value) in providers then AlreadyRegistered
    else Accepted
  }

  lemma BlankIffNormalEmptyOpt(name: Option<string>)
    ensures name.Some? ==> ((Trim(name.value) == []) == (Normalise(name.value) == []))
  {
    if name.Some? {
      BlankIffNormalEmpty(name.value);
    }
  }

  /** The registry after `registerEconomyProvider`. */
  function Registered(providers: map<string, ProviderId>, name: Option<string>, provider: Option<ProviderId>): map<string, ProviderId> {
    if Classify(providers, name, provider) == Accepted then providers[Normalise(name.value) := provider.value] else providers
  }

  /** `getProvider`: null for a null name, else the entry under the normal form. */
  function Lookup(providers: map<string, ProviderId>, name: Option<string>): (r: Option<ProviderId>)
    ensures r.Some? <==> name.Some? && Normalise(name.value) in providers
    ensures r.Some? ==> r.value == providers[Normalise(name.value)]
  {
    if name.Some? && Normalise(name.value) in providers then Some(providers[Normalise(name.value)]) else None
  }

  /** Every stored name is in normal form, is not blank and is not a built-in name. */
  predicate WellKeyed(providers: map<string, ProviderId>) {
    forall key :: key in providers ==> Normalise(key) == key && key != [] && !IsBuiltIn(key)
  }

  /** A refused registration leaves the registry as it was, the provider already under the name included. */
  lemma RefusedLeavesRegistry(providers: map<string, ProviderId>, name: Option<string>, provider: Option<ProviderId>)
    ensures Classify(providers, name, provider) != Accepted ==> Registered(providers, name, provider) == providers
    ensures name.None? || provider.None? ==> Registered(providers, name, provider) == providers
    ensures name.Some? && Trim(name.value) == [] ==> Registered(providers, name, provider) == providers
    ensures name.Some? && IsBuiltIn(Normalise(name.value)) ==> Registered(providers, name, provider) == providers
    ensures name.Some? && Normalise(name.value) in providers ==>
      Lookup(Registered(providers, name, provider), name) == Lookup(providers, name)
  {
    BlankIffNormalEmptyOpt(name);
  }

  /**
   * After an accepted registration the provider is found under any spelling
   * with the same normal form, in particular under the stored name, and
   * every other name finds what it found before.
   */
  lemma RegisteredIsFound(providers: map<string, ProviderId>, name: Option<string>, provider: Option<ProviderId>, other: Option<string>)
    requires Classify(providers, name, provider) == Accepted
    ensures other.Some? && Normalise(other.value) == Normalise(name.value) ==>
      Lookup(Registered(providers, name, provider), other) == provider
    ensures Lookup(Registered(providers, name, provider), Some(Normalise(name.value))) == provider
    ensures other.Some? && Normalise(other.value) != Normalise(name.value) ==>
      Lookup(Registered(providers, name, provider), other) == Lookup(providers, other)
    ensures Lookup(Registered(providers, name, provider), None) == None
  {
    var n := Normalise(name.value);
    var after := Registered(providers, name, provider);
    assert after == providers[n := provider.value];
    NormaliseIdempotent(name.value);
    assert Normalise(n) == n;
    FoundUnder(after, Some(n), n, provider.value);
    if other.Some? && Normalise(other.value) == n {
      FoundUnder(after, other, n, provider.value);
    }
    if other.Some? && Normalise(other.value) != n {
      var o := Normalise(other.value);
      assert (o in after) == (o in providers);
      assert o in providers ==> after[o] == providers[o];
    }
  }

  lemma FoundUnder(providers: map<string, ProviderId>, name: Option<string>, key: string, p: ProviderId)
    requires name.Some? && Normalise(name.value) == key && key in providers && providers[key] == p
    ensures Lookup(providers, name) == Some(p)
  {
  }

  /** Registration keeps every stored name normalised, non-blank and not reserved. */
  lemma RegisterKeepsWellKeyed(providers: map<string, ProviderId>, name: Option<string>, provider: Option<ProviderId>)
    requires WellKeyed(providers)
    ensures WellKeyed(Registered(providers, name, provider))
  {
    if Classify(providers, name, provider) == Accepted {
      NormaliseIdempotent(name.value);
    }
  }

  /** Two names with one normal form get the same answer from every check and lookup of the registry. */
  lemma NormalFormDecides(providers: map<string, ProviderId>, a: string, b: string, provider: Option<ProviderId>)
    requires Normalise(a) == Normalise(b)
    ensures Lookup(providers, Some(a)) == Lookup(providers, Some(b))
    ensures Classify(providers, Some(a), provider) == Classify(providers, Some(b), provider)
    ensures Registered(providers, Some(a), provider) == Registered(providers, Some(b), provider)
  {
    BlankIffNormalEmpty(a);
    BlankIffNormalEmpty(b);
  }

  /** Padding around a name does not survive normalisation. */
  lemma {:induction false} PaddingNormalises(pre: string, a: string, post: string)
    requires forall i :: 0 <= i < |pre| ==> IsTrimmable(pre[i])
    requires forall i :: 0 <= i < |post| ==> IsTrimmable(post[i])
    ensures Normalise(pre + a + post) == Normalise(a)
  {
    var up, ua, upost := ToUpper(pre), ToUpper(a), ToUpper(post);
    var whole := ToUpper(pre + a + post);
    assert whole == up + ua + upost by {
      assert |whole| == |up + ua + upost|;
      forall i | 0 <= i < |whole| ensures whole[i] == (up + ua + upost)[i] {
        if i < |pre| {
          assert (pre + a + post)[i] == pre[i];
        } else if i < |pre| + |a| {
          assert (pre + a + post)[i] == a[i - |pre|];
        } else {
          assert (pre + a + post)[i] == post[i - |pre| - |a|];
        }
      }
    }
    forall i | 0 <= i < |up| ensures IsTrimmable(up[i]) {
      UpperKeepsPadding(pre[i]);
    }
    forall i | 0 <= i < |upost| ensures IsTrimmable(upost[i]) {
      UpperKeepsPadding(post[i]);
    }
    TrimDropsPadding(up, ua, upost);
  }

  /**
   * Names differing only in the case of their letters and in padding around
   * them are one name to the registry: the same lookup, the same verdict,
   * the same registry after registering.
   */
  lemma CaseAndPaddingDoNotMatter(providers: map<string, ProviderId>, pre: string, a: string, b: string, post: string,
                                  provider: Option<ProviderId>)
    requires ToUpper(a) == ToUpper(b)
    requires forall i :: 0 <= i < |pre| ==> IsTrimmable(pre[i])
    requires forall i :: 0 <= i < |post| ==> IsTrimmable(post[i])
    ensures Lookup(providers, Some(pre + a + post)) == Lookup(providers, Some(b))
    ensures Classify(providers, Some(pre + a + post), provider) == Classify(providers, Some(b), provider)
    ensures Registered(providers, Some(pre + a + post), provider) == Registered(providers, Some(b), provider)
  {
    PaddingNormalises(pre, a, post);
    NormalFormDecides(providers, pre + a + post, b, provider);
  }

  lemma PaddedNormal(pre: string, word: string, post: string)
    requires forall i :: 0 <= i < |pre| ==> IsTrimmable(pre[i])
    requires forall i :: 0 <= i < |post| ==> IsTrimmable(post[i])
    requires |word| > 0 && !IsTrimmable(word[0]) && !IsTrimmable(word[|word| - 1])
    ensures Trim(pre + word + post) == word
  {
    TrimDropsPadding(pre, word, post);
    TrimOfTrimmed(word);
  }

  /** `Registered` read as the sequence of early returns in `registerEconomyProvider`. */
  lemma RegistrationSteps(providers: map<string, ProviderId>, name: Option<string>, provider: Option<ProviderId>)
    ensures name.None? || provider.None? ==> Registered(providers, name, provider) == providers
    ensures name.Some? && provider.Some? && Trim(name.value) == [] ==> Registered(providers, name, provider) == providers
    ensures name.Some? && provider.Some? && Trim(name.value) != [] && IsBuiltIn(Normalise(name.value)) ==>
      Registered(providers, name, provider) == providers
    ensures name.Some? && provider.Some? && Trim(name.value) != [] && Normalise(name.value) in providers ==>
      Registered(providers, name, provider) == providers
    ensures (name.Some? && provider.Some? && Trim(name.value) != [] && !IsBuiltIn(Normalise(name.value)) &&
      Normalise(name.value) !in providers) ==>
      Registered(providers, name, provider) == providers[Normalise(name.value) := provider.value]
  {
    if name.Some? && provider.Some? && Trim(name.value) != [] {
      var n := Normalise(name.value);
      if IsBuiltIn(n) {
        assert Classify(providers, name, provider) == Reserved;
      } else if n in providers {
        assert Classify(providers, name, provider) == AlreadyRegistered;
      } else {
        assert Classify(providers, name, provider) == Accepted;
      }
    }
  }

  class ProviderRegistry {
    var customProviders: map<string, ProviderId>

    constructor ()
      ensures customProviders == map[]
    {
      customProviders := map[];
    }

    /** `registerEconomyProvider`; the log messages of the refusals are left out. */
    method RegisterEconomyProvider(name: Option<string>, provider: Option<ProviderId>)
      modifies this
      ensures customProviders == Registered(old(customProviders), name, provider)
    {
      RegistrationSteps(customProviders, name, provider);
      if name.None? || Trim(name.value) == [] || provider.None? {
        return;
      }
      var upperCaseName := Normalise(name.value);
      if IsBuiltIn(upperCaseName) {
        return;
      }
      if upperCaseName in customProviders {
        return;
      }
      customProviders := customProviders[upperCaseName := provider.value];
    }

    /** `getProvider`. */
    function GetProvider(name: Option<string>): (r: Option<ProviderId>)
      reads this
      ensures name.None? ==> r.None?
      ensures r.Some? ==> Normalise(name.value) in customProviders && r.value == customProviders[Normalise(name.value)]
      ensures name.Some? && Normalise(name.value) in customProviders ==> r.Some?
    {
      Lookup(customProviders, name)
    }

    /** `isCustomProvider`: false for a null name, else whether the normal form is registered. */
    predicate IsCustomProvider(name: Option<string>)
      reads this
    {
      name.Some? && Normalise(name.value) in customProviders
    }

    /** A name is a custom provider exactly when `getProvider` finds something for it. */
    lemma CustomIffFound(name: Option<string>)
      ensures IsCustomProvider(name) <==> GetProvider(name).Some?
    {
    }
  }
}
