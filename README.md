# Switch shared-font loader, modelled in Dafny

This project models `SwitchFontLoader::loadFonts`, the routine that sets up fonts for the Switch platform of the borealis UI toolkit. At startup the routine asks the system font service for shared font blobs and registers each one it gets with the toolkit under a fixed font name. It works in four steps:

1. It always tries the **Standard** font first.
2. It checks the applet type. A title that owns the whole display (applet type `Application` or `SystemApplication`) turns on *full fallback*, which means every shared font is loaded.
3. It chooses the optional fonts from the current locale and that flag:
   - the **S.Chinese** and **Ext. S.Chinese** pair for `zh-CN` or `zh-Hans`;
   - **T.Chinese** for `zh-TW` or `zh-Hant`;
   - **Korean** for `ko`.
4. It always tries the **NintendoExt** symbols font, and then the bundled **Material** icons font.

Failures are soft. A failed request is logged, and the routine goes on with the next attempt.

Files:

- `switch_font.dfy`, module `SwitchFont`, holds the model:
  - **Selection.** `IsFullFallback` is the applet-type test. `WantsSChinese`, `WantsTChinese` and `WantsKorean` are the three locale guards, and `GatesOf` evaluates them. `Attempted` is the attempt order that results. `Wanted` with `Selected` is an independent kind-by-kind statement of the same rule, and lemmas tie the two together.
  - **Loading.** `Registrations` and `Failures` give what a run of attempts registers and reports. `RegisteredKinds` lists the attempted shared fonts the provider returned, in attempt order.
  - **State.** The class `FontRegistry` stands for the toolkit's font table. The methods `TryLoadShared`, `LoadLocaleFonts` and `LoadFonts` follow the routine step by step. `LoadLocaleFonts` is the block at lines 42-91. Each method's postcondition ties the new registry contents and the reported failures to `Registrations` and `Failures` of the attempts made so far; for `LoadFonts`, of `Attempted(locale, at)`.
- `sequences.dfy`, module `Sequences`, defines subsequences and sequences with no repeated element, with the lemmas the model uses.
- `wrappers.dfy`, module `Wrappers`, defines the `Option` type that the font provider returns.

The routine has no loop, and neither does the model: `LoadFonts` is straight-line code with the same three guarded blocks as the source. A ghost sequence records the attempts made so far.

Two points about the routine's behaviour:

- **The last attempt.** NintendoExt is not the last attempt: the Material icons are tried after it (`switch_font.cpp`, lines 93-102).
- **A failed Standard font.** It is logged and loading continues (lines 39-40). The model does the same.

## Model

| member | source | states |
|---|---|---|
| `SwitchFont.FullFallbackOnlyForTitles` | library/lib/platforms/switch/switch_font.cpp:44-52 | full fallback holds for the `Application` and `SystemApplication` applet types and fails for each of the other five |
| `SwitchFont.StandardFirstMaterialLast` | library/lib/platforms/switch/switch_font.cpp:35-102 | between 3 and 7 attempts are made; Standard is first, NintendoExt is second to last and Material is last, whatever the locale and applet type |
| `SwitchFont.LocaleGating` | library/lib/platforms/switch/switch_font.cpp:55-90 | Standard, NintendoExt and Material are always attempted; S.Chinese is attempted iff the locale is zh-CN or zh-Hans or full fallback holds; Ext. S.Chinese is attempted iff S.Chinese is; T.Chinese iff zh-TW, zh-Hant or full fallback; Korean iff ko or full fallback |
| `SwitchFont.AttemptedMembership` | library/lib/platforms/switch/switch_font.cpp:36-102 | a kind is attempted exactly when the kind-by-kind rule `Wanted` allows it for the evaluated guards |
| `SwitchFont.LocaleFontsIsSelection` | library/lib/platforms/switch/switch_font.cpp:55-90 | the locale-dependent attempts equal the kind-by-kind rule applied to [S.Chinese, Ext. S.Chinese, T.Chinese, Korean] |
| `SwitchFont.AttemptOrderIsSelection` | library/lib/platforms/switch/switch_font.cpp:36-102 | the attempt sequence equals the kind-by-kind rule applied to the full order [Standard, S.Chinese, Ext. S.Chinese, T.Chinese, Korean, NintendoExt, Material] |
| `SwitchFont.SelectedMembership` | library/lib/platforms/switch/switch_font.cpp:55-90 | the kind-by-kind selection keeps exactly the wanted kinds of its input |
| `SwitchFont.SelectedIsSubsequence` | library/lib/platforms/switch/switch_font.cpp:36-102 | the kind-by-kind selection keeps the order of its input |
| `SwitchFont.AttemptedOrder` | library/lib/platforms/switch/switch_font.cpp:36-102 | the attempt sequence is a subsequence of the full order and no kind appears twice |
| `SwitchFont.FullFallbackAttemptsAll` | library/lib/platforms/switch/switch_font.cpp:46-90 | under full fallback exactly the full sequence of seven attempts is made, whatever the locale |
| `SwitchFont.OtherLocaleAttemptsBase` | library/lib/platforms/switch/switch_font.cpp:55-90 | without full fallback, a locale that none of the guards names leads to exactly [Standard, NintendoExt, Material] |
| `SwitchFont.MaterialOnce` | library/lib/platforms/switch/switch_font.cpp:100-102 | the Material icons are attempted exactly once |
| `SwitchFont.NameOfInjective` | library/lib/platforms/switch/switch_font.cpp:36-98 | different shared fonts get different registration names |
| `SwitchFont.RegistrationsAppend` | library/lib/platforms/switch/switch_font.cpp:36-98 | the registrations of two runs of attempts, one after the other, are the first run's followed by the second's |
| `SwitchFont.FailuresAppend` | library/lib/platforms/switch/switch_font.cpp:39-102 | the failures of two runs of attempts, one after the other, are the first run's followed by the second's |
| `SwitchFont.Step` | library/lib/platforms/switch/switch_font.cpp:36-102 | one more attempt adds that attempt's registration to the registrations and, if the attempt failed, its kind to the failures |
| `SwitchFont.RegisteredKindsSpec` | library/lib/platforms/switch/switch_font.cpp:36-98 | a kind is registered iff it was attempted, is a shared font and the provider returned its blob; the registered kinds keep attempt order |
| `SwitchFont.RegistrationsFollowKinds` | library/lib/platforms/switch/switch_font.cpp:36-98 | the i-th registration is the blob of the i-th registered kind, under that kind's fixed name, with the copy flag false |
| `SwitchFont.RegistrationsAreSuccesses` | library/lib/platforms/switch/switch_font.cpp:37-98 | every attempted shared font whose request succeeds is registered as (its name, its blob, no copy); every registration comes from such an attempt and none is copied |
| `SwitchFont.FailuresSpec` | library/lib/platforms/switch/switch_font.cpp:39-102 | a kind is reported as failed iff it was attempted and its load failed (the provider for shared fonts, the resource load for Material); failures keep attempt order |
| `SwitchFont.OutcomeCount` | library/lib/platforms/switch/switch_font.cpp:36-102 | every attempt ends in exactly one of: a registration, a reported failure, or a Material success |
| `SwitchFont.AttemptedFailures` | library/lib/platforms/switch/switch_font.cpp:36-102 | for the loader's own attempts, a kind is reported as failed iff the rule wants it and its load failed |
| `SwitchFont.AttemptedFailuresDistinct` | library/lib/platforms/switch/switch_font.cpp:39-102 | the loader reports no failed kind twice |
| `SwitchFont.AttemptedRegistered` | library/lib/platforms/switch/switch_font.cpp:36-98 | for the loader's own attempts, a kind is registered iff the rule wants it, it is a shared font and the provider has it |
| `SwitchFont.AttemptedOutcomeCount` | library/lib/platforms/switch/switch_font.cpp:36-102 | registrations plus failures, plus one if Material loaded, equal the number of attempts |
| `SwitchFont.SingleFailure` | library/lib/platforms/switch/switch_font.cpp:36-102 | if the provider fails for one attempted shared font only and the Material icons load, that font is the only failure reported, and there are two fewer registrations than attempts (the failed font and Material) |
| `SwitchFont.FontRegistry.LoadFontFromMemory` | library/lib/platforms/switch/switch_font.cpp:38 | registering appends (name, blob, copy flag) to the registry and changes nothing else |
| `SwitchFont.TryLoadShared` | library/lib/platforms/switch/switch_font.cpp:36-40 | one shared-font attempt adds that kind's registration to the registry if the request succeeds, and otherwise adds the kind to the failures |
| `SwitchFont.LoadLocaleFonts` | library/lib/platforms/switch/switch_font.cpp:42-91 | after detecting full fallback and checking the three locale guards, the registry and the failures are extended by exactly the locale-dependent attempts |
| `SwitchFont.LoadFonts` | library/lib/platforms/switch/switch_font.cpp:30-103 | the new registry is the old one followed by the registrations of `Attempted(locale, appletType)`; the returned failures are the failures of those attempts |

## Left out

- The system calls `plGetSharedFontByType` and `appletGetAppletType`, and the `Result`/`R_SUCCEEDED` codes, are foreign code. The model takes the first as a provider function from font kind to an optional blob, and the applet type as an input value. Error codes are reduced to success or failure.
- `Application::getLocale` is process-wide toolkit state. The model takes the locale as an input string, read once.
- `loadMaterialFromResources` is not part of this model: resource I/O. Its outcome is an input bool. The registration it makes internally is not recorded in the model's registry; only its failure is reported.
- `Application::loadFontFromMemory` is not part of this model. The model records each call as an appended registration. The toolkit's own font table, and any failure it might report (the loader ignores it), are not modelled.
- Memory ownership and lifetime of the blob address and size are not modelled. Only the copy flag (`false` at every call) is recorded.
- The values of the locale constants live in `i18n.hpp`, which is not part of this model. The model uses the BCP 47 tags `zh-CN`, `zh-Hans`, `zh-TW`, `zh-Hant` and `ko`. No proof depends on these values, only on the comparisons in the guards. The font names are distinct enum values instead of the toolkit's name strings.
- Logging is I/O. Error messages become the returned failure list. The two informational messages about applet mode are dropped. So is the unused `rc` argument that line 102 passes to the Material error message.
- The applet-type enumeration lists libnx's seven values. Only `Application` and `SystemApplication` affect the loader.
- The routine has none of these, so the model has none of them: an immutable fallback chain, rejection of duplicate fonts as a configuration error, glyph lookup per codepoint, atomic reload on a locale change, and retry idempotence. Startup is single-threaded, so concurrency is not modelled either.
