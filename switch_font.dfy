/**
 * The shared-font bootstrap of the toolkit's Switch platform
 * (SwitchFontLoader::loadFonts): decide from the applet type whether every
 * shared font is wanted ("full fallback"), choose the shared fonts to request
 * from the locale and that flag, request each in a fixed order, register each
 * one the system provides under a fixed toolkit name, and report every
 * failure without stopping.
 *
 * The system font service, the applet-type query, the current locale and the
 * bundled Material icons loader are inputs of the model.
 */
module SwitchFont {
  import opened Wrappers
  import opened Sequences

  /** The applet types the system can report for the running program. */
  datatype AppletType =
    | NoApplet
    | Default
    | Application
    | SystemApplet
    | LibraryApplet
    | OverlayApplet
    | SystemApplication

  /** Every font the loader attempts: six shared system fonts and the bundled Material icons. */
  datatype FontKind =
    | Standard
    | SChinese
    | ExtSChinese
    | TChinese
    | Korean
    | NintendoExt
    | Material

  /** The toolkit names under which the shared fonts are registered. */
  datatype FontName =
    | FontStandardRegular
    | FontSChineseRegular
    | FontSChineseExtend
    | FontTChineseRegular
    | FontKoreanRegular
    | FontSwitchIcons

  /** A font blob handed out by the system font service: where it lives and how long it is. */
  datatype Blob = Blob(address: nat, size: nat)

  /** One call of the toolkit's load-font-from-memory entry point. */
  datatype Registration = Registration(name: FontName, blob: Blob, copy: bool)

  /**
   * The system font service: the blob of a shared font, or None when the
   * request fails. The loader never asks it for Material, which comes from
   * the bundled resources instead.
   */
  type Provider = FontKind -> Option<Blob>

  // Locale tags compared against the current locale.
  const LocaleZhCn: string := "zh-CN"
  const LocaleZhHans: string := "zh-Hans"
  const LocaleZhTw: string := "zh-TW"
  const LocaleZhHant: string := "zh-Hant"
  const LocaleKo: string := "ko"

  /** The attempt order when every font is wanted. */
  const AllKinds: seq<FontKind> :=
    [Standard, SChinese, ExtSChinese, TChinese, Korean, NintendoExt, Material]

  // ---------------------------------------------------------------------
  // Selection
  // ---------------------------------------------------------------------

  /** A title that owns the whole display ("title takeover") loads every shared font. */
  predicate IsFullFallback(at: AppletType) {
    at == Application || at == SystemApplication
  }

  /** Gate of the S.Chinese pair. */
  predicate WantsSChinese(locale: string, full: bool) {
    locale == LocaleZhCn || locale == LocaleZhHans || full
  }

  /** Gate of T.Chinese. */
  predicate WantsTChinese(locale: string, full: bool) {
    locale == LocaleZhTw || locale == LocaleZhHant || full
  }

  /** Gate of Korean. */
  predicate WantsKorean(locale: string, full: bool) {
    locale == LocaleKo || full
  }

  /** The outcome of the three guards: which optional shared fonts are attempted. */
  datatype Gates = Gates(sChinese: bool, tChinese: bool, korean: bool)

  /** The guards evaluated for a locale and applet type. */
  function GatesOf(locale: string, at: AppletType): Gates {
    var full := IsFullFallback(at);
    Gates(WantsSChinese(locale, full), WantsTChinese(locale, full), WantsKorean(locale, full))
  }

  /** The locale-dependent attempts, in order: the S.Chinese pair, T.Chinese, Korean. */
  function LocaleFonts(g: Gates): seq<FontKind> {
    (if g.sChinese then [SChinese, ExtSChinese] else [])
    + (if g.tChinese then [TChinese] else [])
    + (if g.korean then [Korean] else [])
  }

  /** The attempts the loader makes once the guards are evaluated, in order. */
  function AttemptOrder(g: Gates): seq<FontKind> {
    [Standard] + LocaleFonts(g) + [NintendoExt] + [Material]
  }

  /** The fonts the loader attempts for a locale and applet type, in the order it attempts them. */
  function Attempted(locale: string, at: AppletType): seq<FontKind> {
    AttemptOrder(GatesOf(locale, at))
  }

  /** Reference rule, kind by kind: whether the guards let a kind be attempted. */
  predicate Wanted(k: FontKind, g: Gates) {
    match k
    case SChinese | ExtSChinese => g.sChinese
    case TChinese => g.tChinese
    case Korean => g.korean
    case Standard | NintendoExt | Material => true
  }

  /** The wanted kinds of `ks`, in the order of `ks`. */
  function Selected(ks: seq<FontKind>, g: Gates): seq<FontKind> {
    if ks == [] then []
    else (if Wanted(ks[0], g) then [ks[0]] else []) + Selected(ks[1..], g)
  }

  lemma {:induction false} SelectedMembership(ks: seq<FontKind>, g: Gates, k: FontKind)
    ensures k in Selected(ks, g) <==> k in ks && Wanted(k, g)
  {
    if ks != [] {
      SelectedMembership(ks[1..], g, k);
      assert ks == [ks[0]] + ks[1..];
    }
  }

  lemma {:induction false} SelectedIsSubsequence(ks: seq<FontKind>, g: Gates)
    ensures IsSubsequence(Selected(ks, g), ks)
  {
    if ks != [] {
      SelectedIsSubsequence(ks[1..], g);
      var rest := Selected(ks[1..], g);
      if Wanted(ks[0], g) {
        assert Selected(ks, g)[1..] == rest;
      } else {
        assert Selected(ks, g) == rest;
        SubsequenceSkip(rest, ks);
      }
    }
  }

  lemma {:induction false} SelectedAppend(a: seq<FontKind>, b: seq<FontKind>, g: Gates)
    ensures Selected(a + b, g) == Selected(a, g) + Selected(b, g)
  {
    if a == [] {
      assert a + b == b;
    } else {
      assert (a + b)[1..] == a[1..] + b;
      SelectedAppend(a[1..], b, g);
    }
  }

  lemma SelectedOne(k: FontKind, g: Gates)
    ensures Wanted(k, g) ==> Selected([k], g) == [k]
    ensures !Wanted(k, g) ==> Selected([k], g) == []
  {
    assert [k][1..] == [];
  }

  /** The locale-dependent attempts are the kind-by-kind rule applied to their fixed order. */
  lemma LocaleFontsIsSelection(g: Gates)
    ensures LocaleFonts(g) == Selected([SChinese, ExtSChinese, TChinese, Korean], g)
  {
    var sc, tc, ko := [SChinese] + [ExtSChinese], [TChinese], [Korean];
    assert [SChinese, ExtSChinese, TChinese, Korean] == sc + tc + ko;
    SelectedAppend(sc + tc, ko, g);
    SelectedAppend(sc, tc, g);
    SelectedAppend([SChinese], [ExtSChinese], g);
    SelectedOne(SChinese, g);
    SelectedOne(ExtSChinese, g);
    SelectedOne(TChinese, g);
    SelectedOne(Korean, g);
    if g.sChinese {
      assert Selected(sc, g) == [SChinese, ExtSChinese];
    } else {
      assert Selected(sc, g) == [];
    }
  }

  /** The attempt order is the kind-by-kind rule applied to the full attempt order. */
  lemma AttemptOrderIsSelection(g: Gates)
    ensures AttemptOrder(g) == Selected(AllKinds, g)
  {
    var locale := [SChinese, ExtSChinese, TChinese, Korean];
    assert AllKinds == [Standard] + locale + [NintendoExt] + [Material];
    SelectedAppend([Standard] + locale + [NintendoExt], [Material], g);
    SelectedAppend([Standard] + locale, [NintendoExt], g);
    SelectedAppend([Standard], locale, g);
    SelectedOne(Standard, g);
    SelectedOne(NintendoExt, g);
    SelectedOne(Material, g);
    LocaleFontsIsSelection(g);
  }

  /** A kind is attempted exactly when the kind-by-kind rule wants it. */
  lemma AttemptedMembership(locale: string, at: AppletType, k: FontKind)
    ensures k in Attempted(locale, at) <==> Wanted(k, GatesOf(locale, at))
  {
    AttemptOrderIsSelection(GatesOf(locale, at));
    SelectedMembership(AllKinds, GatesOf(locale, at), k);
  }

  /** Full fallback holds for the two title applet types and for no other. */
  lemma FullFallbackOnlyForTitles()
    ensures IsFullFallback(Application) && IsFullFallback(SystemApplication)
    ensures !IsFullFallback(NoApplet) && !IsFullFallback(Default) && !IsFullFallback(SystemApplet)
    ensures !IsFullFallback(LibraryApplet) && !IsFullFallback(OverlayApplet)
  {
  }

  /** Standard comes first; the symbols font and then Material come last. */
  lemma StandardFirstMaterialLast(locale: string, at: AppletType)
    ensures 3 <= |Attempted(locale, at)| <= 7
    ensures Attempted(locale, at)[0] == Standard
    ensures Attempted(locale, at)[|Attempted(locale, at)| - 2] == NintendoExt
    ensures Attempted(locale, at)[|Attempted(locale, at)| - 1] == Material
  {
  }

  /** The locale gates: which optional fonts are attempted, as stated by the guards. */
  lemma LocaleGating(locale: string, at: AppletType)
    ensures var a := Attempted(locale, at); var full := IsFullFallback(at);
      && Standard in a && NintendoExt in a && Material in a
      && (SChinese in a <==> locale == LocaleZhCn || locale == LocaleZhHans || full)
      && (ExtSChinese in a <==> SChinese in a)
      && (TChinese in a <==> locale == LocaleZhTw || locale == LocaleZhHant || full)
      && (Korean in a <==> locale == LocaleKo || full)
  {
    AttemptedMembership(locale, at, Standard);
    AttemptedMembership(locale, at, SChinese);
    AttemptedMembership(locale, at, ExtSChinese);
    AttemptedMembership(locale, at, TChinese);
    AttemptedMembership(locale, at, Korean);
    AttemptedMembership(locale, at, NintendoExt);
    AttemptedMembership(locale, at, Material);
  }

  /** The full attempt order names no kind twice. */
  lemma AllKindsDistinct()
    ensures Distinct(AllKinds)
  {
  }

  /** The attempts keep the fixed order and never repeat a kind. */
  lemma AttemptedOrder(locale: string, at: AppletType)
    ensures IsSubsequence(Attempted(locale, at), AllKinds)
    ensures Distinct(Attempted(locale, at))
  {
    AttemptOrderIsSelection(GatesOf(locale, at));
    SelectedIsSubsequence(AllKinds, GatesOf(locale, at));
    AllKindsDistinct();
    SubsequenceOfDistinct(Attempted(locale, at), AllKinds);
  }

  /** Under full fallback every font is attempted, whatever the locale. */
  lemma FullFallbackAttemptsAll(locale: string, at: AppletType)
    requires IsFullFallback(at)
    ensures Attempted(locale, at) == AllKinds
  {
  }

  /** Outside full fallback, a locale none of the gates names attempts only the three unconditional fonts. */
  lemma OtherLocaleAttemptsBase(locale: string, at: AppletType)
    requires !IsFullFallback(at)
    requires locale !in {LocaleZhCn, LocaleZhHans, LocaleZhTw, LocaleZhHant, LocaleKo}
    ensures Attempted(locale, at) == [Standard, NintendoExt, Material]
  {
  }

  // ---------------------------------------------------------------------
  // Loading
  // ---------------------------------------------------------------------

  /** The registration name of each shared font. */
  function NameOf(k: FontKind): FontName
    requires k != Material
  {
    match k
    case Standard => FontStandardRegular
    case SChinese => FontSChineseRegular
    case ExtSChinese => FontSChineseExtend
    case TChinese => FontTChineseRegular
    case Korean => FontKoreanRegular
    case NintendoExt => FontSwitchIcons
  }

  /** Distinct shared fonts are registered under distinct names. */
  lemma NameOfInjective(j: FontKind, k: FontKind)
    requires j != Material && k != Material && j != k
    ensures NameOf(j) != NameOf(k)
  {
  }

  /** Whether the attempt on `k` succeeds: a provider result for shared fonts, the resource outcome for Material. */
  predicate Succeeded(k: FontKind, provider: Provider, materialOk: bool) {
    if k == Material then materialOk else provider(k).Some?
  }

  /** What one attempt registers: the blob under the kind's name, not copied, when the provider has it. */
  function RegistrationOf(k: FontKind, provider: Provider): seq<Registration> {
    if k != Material && provider(k).Some? then [Registration(NameOf(k), provider(k).value, false)] else []
  }

  /** The registrations made by a run of attempts. */
  function Registrations(attempts: seq<FontKind>, provider: Provider): seq<Registration> {
    if attempts == [] then []
    else RegistrationOf(attempts[0], provider) + Registrations(attempts[1..], provider)
  }

  /** The failures reported by a run of attempts. */
  function Failures(attempts: seq<FontKind>, provider: Provider, materialOk: bool): seq<FontKind> {
    if attempts == [] then []
    else (if Succeeded(attempts[0], provider, materialOk) then [] else [attempts[0]])
         + Failures(attempts[1..], provider, materialOk)
  }

  /** Reference: the attempted shared fonts the provider has, in attempt order. */
  function RegisteredKinds(attempts: seq<FontKind>, provider: Provider): seq<FontKind> {
    if attempts == [] then []
    else (if attempts[0] != Material && provider(attempts[0]).Some? then [attempts[0]] else [])
         + RegisteredKinds(attempts[1..], provider)
  }

  lemma {:induction false} RegistrationsAppend(a: seq<FontKind>, b: seq<FontKind>, provider: Provider)
    ensures Registrations(a + b, provider) == Registrations(a, provider) + Registrations(b, provider)
  {
    if a == [] {
      assert a + b == b;
    } else {
      assert (a + b)[1..] == a[1..] + b;
      RegistrationsAppend(a[1..], b, provider);
    }
  }

  lemma {:induction false} FailuresAppend(a: seq<FontKind>, b: seq<FontKind>, provider: Provider, materialOk: bool)
    ensures Failures(a + b, provider, materialOk) == Failures(a, provider, materialOk) + Failures(b, provider, materialOk)
  {
    if a == [] {
      assert a + b == b;
    } else {
      assert (a + b)[1..] == a[1..] + b;
      FailuresAppend(a[1..], b, provider, materialOk);
    }
  }

  /** Registered kinds = attempted kinds whose provider call succeeded, kept in attempt order. */
  lemma {:induction false} RegisteredKindsSpec(attempts: seq<FontKind>, provider: Provider, k: FontKind)
    ensures k in RegisteredKinds(attempts, provider) <==> k in attempts && k != Material && provider(k).Some?
    ensures IsSubsequence(RegisteredKinds(attempts, provider), attempts)
  {
    if attempts != [] {
      RegisteredKindsSpec(attempts[1..], provider, k);
      assert attempts == [attempts[0]] + attempts[1..];
      var rest := RegisteredKinds(attempts[1..], provider);
      if attempts[0] != Material && provider(attempts[0]).Some? {
        assert RegisteredKinds(attempts, provider)[1..] == rest;
      } else {
        assert RegisteredKinds(attempts, provider) == rest;
        SubsequenceSkip(rest, attempts);
      }
    }
  }

  /** The i-th registration registers the i-th registered kind's blob under its name, without copying. */
  lemma {:induction false} RegistrationsFollowKinds(attempts: seq<FontKind>, provider: Provider)
    ensures var ks := RegisteredKinds(attempts, provider);
      && (forall i :: 0 <= i < |ks| ==> ks[i] != Material && provider(ks[i]).Some?)
      && |Registrations(attempts, provider)| == |ks|
      && forall i :: 0 <= i < |ks| ==>
           Registrations(attempts, provider)[i] == Registration(NameOf(ks[i]), provider(ks[i]).value, false)
  {
    if attempts != [] {
      RegistrationsFollowKinds(attempts[1..], provider);
    }
  }

  /** Fail-soft: every attempted shared font the provider has is registered, and nothing else is. */
  lemma RegistrationsAreSuccesses(attempts: seq<FontKind>, provider: Provider)
    ensures forall k :: k in attempts && k != Material && provider(k).Some? ==>
      Registration(NameOf(k), provider(k).value, false) in Registrations(attempts, provider)
    ensures forall r :: r in Registrations(attempts, provider) ==>
      !r.copy && exists k :: k in attempts && k != Material && provider(k) == Some(r.blob) && r.name == NameOf(k)
  {
    RegistrationsFollowKinds(attempts, provider);
    var ks := RegisteredKinds(attempts, provider);
    var regs := Registrations(attempts, provider);
    forall k | k in attempts && k != Material && provider(k).Some?
      ensures Registration(NameOf(k), provider(k).value, false) in regs
    {
      RegisteredKindsSpec(attempts, provider, k);
      var i :| 0 <= i < |ks| && ks[i] == k;
      assert regs[i] == Registration(NameOf(k), provider(k).value, false);
    }
    forall r | r in regs
      ensures !r.copy && exists k :: k in attempts && k != Material && provider(k) == Some(r.blob) && r.name == NameOf(k)
    {
      var i :| 0 <= i < |regs| && regs[i] == r;
      RegisteredKindsSpec(attempts, provider, ks[i]);
    }
  }

  /** A failure is reported exactly for each attempted kind whose load failed, in attempt order. */
  lemma {:induction false} FailuresSpec(attempts: seq<FontKind>, provider: Provider, materialOk: bool, k: FontKind)
    ensures k in Failures(attempts, provider, materialOk) <==> k in attempts && !Succeeded(k, provider, materialOk)
    ensures IsSubsequence(Failures(attempts, provider, materialOk), attempts)
  {
    if attempts != [] {
      FailuresSpec(attempts[1..], provider, materialOk, k);
      assert attempts == [attempts[0]] + attempts[1..];
      var rest := Failures(attempts[1..], provider, materialOk);
      if !Succeeded(attempts[0], provider, materialOk) {
        assert Failures(attempts, provider, materialOk)[1..] == rest;
      } else {
        assert Failures(attempts, provider, materialOk) == rest;
        SubsequenceSkip(rest, attempts);
      }
    }
  }

  /** Every attempt ends in exactly one of: a registration, a reported failure, or a Material success. */
  lemma {:induction false} OutcomeCount(attempts: seq<FontKind>, provider: Provider, materialOk: bool)
    ensures |Registrations(attempts, provider)| + |Failures(attempts, provider, materialOk)|
            + (if materialOk then multiset(attempts)[Material] else 0) == |attempts|
  {
    if attempts != [] {
      OutcomeCount(attempts[1..], provider, materialOk);
      assert attempts == [attempts[0]] + attempts[1..];
    }
  }

  /** The loader's outcome for a locale and applet type, stated against the selection rule. */
  lemma AttemptedFailures(locale: string, at: AppletType, provider: Provider, materialOk: bool, k: FontKind)
    ensures k in Failures(Attempted(locale, at), provider, materialOk)
            <==> Wanted(k, GatesOf(locale, at)) && !Succeeded(k, provider, materialOk)
  {
    FailuresSpec(Attempted(locale, at), provider, materialOk, k);
    AttemptedMembership(locale, at, k);
  }

  /** The loader reports each failed kind once. */
  lemma AttemptedFailuresDistinct(locale: string, at: AppletType, provider: Provider, materialOk: bool)
    ensures Distinct(Failures(Attempted(locale, at), provider, materialOk))
  {
    AttemptedOrder(locale, at);
    FailuresSpec(Attempted(locale, at), provider, materialOk, Material);
    SubsequenceOfDistinct(Failures(Attempted(locale, at), provider, materialOk), Attempted(locale, at));
  }

  /** The loader registers exactly the shared fonts the rule wants and the provider has. */
  lemma AttemptedRegistered(locale: string, at: AppletType, provider: Provider, k: FontKind)
    ensures k in RegisteredKinds(Attempted(locale, at), provider)
            <==> Wanted(k, GatesOf(locale, at)) && k != Material && provider(k).Some?
  {
    RegisteredKindsSpec(Attempted(locale, at), provider, k);
    AttemptedMembership(locale, at, k);
  }

  /** Material is attempted exactly once, at the end. */
  lemma MaterialOnce(g: Gates)
    ensures multiset(AttemptOrder(g))[Material] == 1
  {
    var front := [Standard] + LocaleFonts(g) + [NintendoExt];
    assert Material !in front;
    assert multiset(front)[Material] == 0;
    assert AttemptOrder(g) == front + [Material];
  }

  /** For the loader's attempts: registrations plus failures account for every attempt but a Material success. */
  lemma AttemptedOutcomeCount(locale: string, at: AppletType, provider: Provider, materialOk: bool)
    ensures |Registrations(Attempted(locale, at), provider)| + |Failures(Attempted(locale, at), provider, materialOk)|
            + (if materialOk then 1 else 0) == |Attempted(locale, at)|
  {
    OutcomeCount(Attempted(locale, at), provider, materialOk);
    MaterialOnce(GatesOf(locale, at));
  }

  /** With a provider that fails for one attempted shared font only, and the Material icons loading, that font is the one failure reported. */
  lemma SingleFailure(locale: string, at: AppletType, provider: Provider, f: FontKind)
    requires f != Material && f in Attempted(locale, at)
    requires forall k :: k != Material ==> (provider(k).None? <==> k == f)
    ensures Failures(Attempted(locale, at), provider, true) == [f]
    ensures |Registrations(Attempted(locale, at), provider)| == |Attempted(locale, at)| - 2
  {
    var a := Attempted(locale, at);
    var fs := Failures(a, provider, true);
    AttemptedOrder(locale, at);
    FailuresSpec(a, provider, true, f);
    SubsequenceOfDistinct(fs, a);
    forall k | k in fs ensures k == f {
      FailuresSpec(a, provider, true, k);
    }
    DistinctSingleton(fs, f);
    AttemptedOutcomeCount(locale, at, provider, true);
  }

  // ---------------------------------------------------------------------
  // The registry and the loader
  // ---------------------------------------------------------------------

  /** The toolkit's font registry, as the sequence of registrations it has received. */
  class FontRegistry {
    var fonts: seq<Registration>

    constructor ()
      ensures fonts == []
    {
      fonts := [];
    }

    /** Register a font blob under a name; `copy` says whether the toolkit copies the bytes. */
    method LoadFontFromMemory(name: FontName, blob: Blob, copy: bool)
      modifies this
      ensures fonts == old(fonts) + [Registration(name, blob, copy)]
    {
      fonts := fonts + [Registration(name, blob, copy)];
    }
  }

  /**
   * One shared-font attempt after the attempts `done`: request the blob,
   * register it if the request succeeds, record a failure otherwise.
   */
  method TryLoadShared(registry: FontRegistry, provider: Provider, k: FontKind, failures: seq<FontKind>,
                       ghost base: seq<Registration>, ghost done: seq<FontKind>, ghost materialOk: bool)
    returns (failures': seq<FontKind>)
    requires k != Material
    requires registry.fonts == base + Registrations(done, provider)
    requires failures == Failures(done, provider, materialOk)
    modifies registry
    ensures registry.fonts == base + Registrations(done + [k], provider)
    ensures failures' == Failures(done + [k], provider, materialOk)
  {
    Step(done, k, provider, materialOk);
    var font := provider(k);
    if font.Some? {
      registry.LoadFontFromMemory(NameOf(k), font.value, false);
      failures' := failures;
    } else {
      failures' := failures + [k];
    }
  }

  /**
   * The locale-dependent part of the loader: detect full fallback, then
   * attempt the S.Chinese pair, T.Chinese and Korean as the guards allow.
   */
  method LoadLocaleFonts(registry: FontRegistry, provider: Provider, at: AppletType, locale: string,
                         failures: seq<FontKind>,
                         ghost base: seq<Registration>, ghost done: seq<FontKind>, ghost materialOk: bool)
    returns (failures': seq<FontKind>)
    requires registry.fonts == base + Registrations(done, provider)
    requires failures == Failures(done, provider, materialOk)
    modifies registry
    ensures registry.fonts == base + Registrations(done + LocaleFonts(GatesOf(locale, at)), provider)
    ensures failures' == Failures(done + LocaleFonts(GatesOf(locale, at)), provider, materialOk)
  {
    var isFullFallback := false;
    if at == Application || at == SystemApplication {
      isFullFallback := true;
    }
    ghost var g := GatesOf(locale, at);
    assert isFullFallback == IsFullFallback(at);

    ghost var d := done;
    failures' := failures;
    if WantsSChinese(locale, isFullFallback) {
      failures' := TryLoadShared(registry, provider, SChinese, failures', base, d, materialOk);
      d := d + [SChinese];
      failures' := TryLoadShared(registry, provider, ExtSChinese, failures', base, d, materialOk);
      d := d + [ExtSChinese];
    }
    ghost var sc := if g.sChinese then [SChinese, ExtSChinese] else [];
    assert d == done + sc;

    if WantsTChinese(locale, isFullFallback) {
      failures' := TryLoadShared(registry, provider, TChinese, failures', base, d, materialOk);
      d := d + [TChinese];
    }
    ghost var tc := if g.tChinese then [TChinese] else [];
    assert d == done + sc + tc;

    if WantsKorean(locale, isFullFallback) {
      failures' := TryLoadShared(registry, provider, Korean, failures', base, d, materialOk);
      d := d + [Korean];
    }
    ghost var ko := if g.korean then [Korean] else [];
    assert d == done + sc + tc + ko;
    AppendAssoc(done, sc, tc);
    AppendAssoc(done, sc + tc, ko);
  }

  /**
   * Load the fonts for the current locale and applet type. Every attempt
   * runs whatever the earlier ones did; the returned failures replace the
   * error log.
   */
  method LoadFonts(registry: FontRegistry, provider: Provider, at: AppletType, locale: string, materialOk: bool)
    returns (failures: seq<FontKind>)
    modifies registry
    ensures registry.fonts == old(registry.fonts) + Registrations(Attempted(locale, at), provider)
    ensures failures == Failures(Attempted(locale, at), provider, materialOk)
  {
    ghost var base := registry.fonts;
    ghost var done: seq<FontKind> := [];
    failures := [];

    failures := TryLoadShared(registry, provider, Standard, failures, base, done, materialOk);
    assert done + [Standard] == [Standard];
    done := [Standard];

    failures := LoadLocaleFonts(registry, provider, at, locale, failures, base, done, materialOk);
    done := done + LocaleFonts(GatesOf(locale, at));

    failures := TryLoadShared(registry, provider, NintendoExt, failures, base, done, materialOk);
    done := done + [NintendoExt];

    // The Material icons come from the bundled resources, not from the system font service.
    Step(done, Material, provider, materialOk);
    if !materialOk {
      failures := failures + [Material];
    }
    done := done + [Material];
    assert done == Attempted(locale, at);
  }

  /** Extending a run of attempts by one kind extends its registrations and failures by that attempt's. */
  lemma Step(done: seq<FontKind>, k: FontKind, provider: Provider, materialOk: bool)
    ensures Registrations(done + [k], provider) == Registrations(done, provider) + RegistrationOf(k, provider)
    ensures Failures(done + [k], provider, materialOk)
            == Failures(done, provider, materialOk) + (if Succeeded(k, provider, materialOk) then [] else [k])
  {
    RegistrationsAppend(done, [k], provider);
    FailuresAppend(done, [k], provider, materialOk);
    assert Registrations([k], provider) == RegistrationOf(k, provider) + Registrations([], provider);
    assert Failures([k], provider, materialOk)
           == (if Succeeded(k, provider, materialOk) then [] else [k]) + Failures([], provider, materialOk);
  }
}
