# Matomo opt-out form: the iframe address

This project models `MatomoOptOutFormComponent` from the Angular Matomo tracker library. The component shows Matomo's opt-out form in an iframe. It builds the iframe's `src` from a fixed template:

```
{SERVER}/index.php?module=CoreAdminHome&action=optOut&language={LOCALE}&backgroundColor={BG_COLOR}&fontColor={COLOR}&fontSize={FONT_SIZE}&fontFamily={FONT_FAMILY}
```

The placeholders are filled in this order:

1. The server URL goes in without encoding. `replace` still interprets `$$`, `$&`, `` $` `` and `$'` in it (see `OptOutUrl.ServerMatchPattern`).
2. The locale, font colour, background colour, font size and font family go in after passing through `encodeURIComponent`.

The server URL is resolved first:

- When an override is set through the `serverUrl` input, the sanitized override is used.
- Otherwise the first tracker URL of an explicit tracker configuration is used.
- If the resolved URL is missing or empty, the update throws the "MANUAL configuration" error and the previous address stays.

`ngOnChanges` recomputes the address only when one of the six inputs that feed it has changed.

Modules:

- `Wrappers`: `Option` and `Outcome`.
- `UriComponent`: `encodeURIComponent`, defined in full, and `decodeURIComponent` as its inverse.
  - The encoding follows section 19.2.6 of ECMA-262: the unreserved set is `A-Z a-z 0-9 - _ . ! ~ * ' ( )`, and every other character becomes its UTF-8 octets as upper-case `%XX` triples.
  - The decoder rejects malformed, overlong, surrogate and out-of-range sequences, where JavaScript throws a `URIError`.
- `JsString`: `String.prototype.replace` with a string pattern, as JavaScript defines it.
  - Only the first occurrence is replaced.
  - The replacement text goes through GetSubstitution, so `$$`, `$&`, `` $` `` and `$'` in it are patterns.
- `OptOutUrl`: the template, the chain of `replace` calls (`BuildUrl`), and the intended field layout written out independently (`OptOutAddress`). It also holds the lemmas that connect the two, and the proof that reading the query back returns each value under its own field name.
- `QueryString`: a reference reader for URL queries.
  - The query is the text after the first `?` and before any `#`.
  - Fields are split at `&`.
  - Each field is split at its first `=`.
  - Values are decoded with `decodeURIComponent`.
- `OptOutForm`: the component as a class.
  - Its state: `_defaultServerUrl`, `_serverUrlOverride`, `_border`, `_width`, `_height`, `_iframeSrc` and the five appearance inputs.
  - Its methods: the setters, `updateUrl`, `ngOnInit` and `ngOnChanges`.
  - Pure functions and lemmas for the resolution rules.

Two consequences of the code are worth stating directly:

- **A rejected override does not fall back to the default.** When an override is present but the sanitizer returns `null` or `""`, `updateUrl` throws instead of using the configured tracker URL (matomo-opt-out-form.component.ts:147-152, `OptOutForm.OverrideWins`).
- **Only six inputs trigger a new address.** Changes to `border`, `width` or `height` alone do not recompute it (matomo-opt-out-form.component.ts:131-142, `OptOutForm.SizeChangesDoNotTrigger`).

## Model

| member | source | states |
|---|---|---|
| `UriComponent.EncodeURIComponent` | projects/tracker/src/lib/directives/matomo-opt-out-form.component.ts:156-160 | Every position of an encoded value is an unreserved character or the start of a `%XX` triple with upper-case hex digits, and the encoding is never shorter than the value |
| `UriComponent.EncodedHasNoDelimiters` | projects/tracker/src/lib/directives/matomo-opt-out-form.component.ts:156-160 | No encoded value contains `&`, `=`, `#`, `?`, `{`, `}`, `$`, `+` or a space, so an input cannot open a new query field or placeholder |
| `UriComponent.DecodeEncode` | projects/tracker/src/lib/directives/matomo-opt-out-form.component.ts:156-160 | `decodeURIComponent(encodeURIComponent(s))` gives back `s` for every string, including characters outside ASCII |
| `UriComponent.EncodeInjective` | projects/tracker/src/lib/directives/matomo-opt-out-form.component.ts:156-160 | Two values with the same encoding are equal, so an encoded field identifies its value |
| `UriComponent.EncodeUnreservedIsIdentity` | projects/tracker/src/lib/directives/matomo-opt-out-form.component.ts:156-160 | A value made only of unreserved characters (such as `en-US`, `fff`, `14px`) is inserted unchanged |
| `UriComponent.EncodeAppend` | projects/tracker/src/lib/directives/matomo-opt-out-form.component.ts:156-160 | Encoding works character by character: the encoding of `a + b` is the encoding of `a` followed by that of `b` |
| `UriComponent.SpaceEncoded` | projects/tracker/src/lib/directives/matomo-opt-out-form.component.ts:160 | A space between unreserved words becomes `%20` (`Arial Sans` is sent as `Arial%20Sans`) |
| `JsString.IndexOf` | projects/tracker/src/lib/directives/matomo-opt-out-form.component.ts:155-160 | The position found is an occurrence of the pattern with none before it; no position is found exactly when the pattern occurs nowhere |
| `JsString.ReplaceAbsent` | projects/tracker/src/lib/directives/matomo-opt-out-form.component.ts:155-160 | `replace` leaves a subject without the pattern unchanged |
| `JsString.ReplaceFirst` | projects/tracker/src/lib/directives/matomo-opt-out-form.component.ts:155-160 | When the first occurrence of the pattern follows `x`, and the replacement text has no `$` pattern, `replace` swaps that one occurrence for the text and keeps everything else |
| `JsString.SubstitutionIsLiteral` | projects/tracker/src/lib/directives/matomo-opt-out-form.component.ts:155-160 | Replacement text without `$$`, `$&`, `` $` `` or `$'` is inserted as it is |
| `JsString.SubstitutionOfMatch` | projects/tracker/src/lib/directives/matomo-opt-out-form.component.ts:155 | A `$&` in the replacement text is replaced by the matched text |
| `OptOutUrl.BuildUrlLayout` | projects/tracker/src/lib/directives/matomo-opt-out-form.component.ts:155-160 | For a server URL with no `$` pattern and none of the five later placeholders, the filled template is the server URL, `/index.php?module=CoreAdminHome&action=optOut`, then `language`, `backgroundColor`, `fontColor`, `fontSize` and `fontFamily` with the encoded locale, background colour, colour, font size and font family. `color` goes to `fontColor` |
| `OptOutUrl.ServerMatchPattern` | projects/tracker/src/lib/directives/matomo-opt-out-form.component.ts:155 | A server URL containing `$&` gets the `{SERVER}` placeholder inserted back in its place, so the layout above needs its precondition |
| `OptOutUrl.AddressQueryFields` | projects/tracker/src/lib/directives/matomo-opt-out-form.component.ts:24-25 | For a server URL without `?` or `#`, the query of the address splits into exactly seven fields: `module=CoreAdminHome`, `action=optOut` and the five named fields with their encoded values. No input spills into a neighbouring field |
| `OptOutUrl.AddressParams` | projects/tracker/src/lib/directives/matomo-opt-out-form.component.ts:155-160 | Reading the address back with `decodeURIComponent` gives the locale under `language`, the background colour under `backgroundColor`, the colour under `fontColor`, the font size under `fontSize` and the font family under `fontFamily`, whatever their characters |
| `OptOutForm.RefreshedLayout` | projects/tracker/src/lib/directives/matomo-opt-out-form.component.ts:144-163 | When the resolved server URL is usable and inserted verbatim, the update yields the trusted address with the fixed field layout |
| `OptOutForm.NoServerUrlFails` | projects/tracker/src/lib/directives/matomo-opt-out-form.component.ts:145-153 | With no override and no configured tracker URL, the update throws the missing-server-URL error |
| `OptOutForm.OverrideWins` | projects/tracker/src/lib/directives/matomo-opt-out-form.component.ts:145-153 | A present override decides alone, whatever the default. A usable sanitized value is the server URL used. A missing or empty sanitized value throws, even when a default exists |
| `OptOutForm.DefaultWithoutOverride` | projects/tracker/src/lib/directives/matomo-opt-out-form.component.ts:145-153 | Without an override the configured default is the server URL. A missing or empty default throws |
| `OptOutForm.TriggersUpdateIff` | projects/tracker/src/lib/directives/matomo-opt-out-form.component.ts:131-142 | The change test holds if and only if the changed names include one of `serverUrl`, `locale`, `color`, `backgroundColor`, `fontSize`, `fontFamily` |
| `OptOutForm.SizeChangesDoNotTrigger` | projects/tracker/src/lib/directives/matomo-opt-out-form.component.ts:131-142 | A change of only `border`, `width` or `height` does not recompute the address |
| `OptOutForm.OptOutFormComponent.constructor` | projects/tracker/src/lib/directives/matomo-opt-out-form.component.ts:66-77 | Initial state: border `0`, width `600px`, height `200px`, empty colours and fonts, no override, trusted empty address. The locale is the injected one or empty. The default server URL is the first tracker's URL exactly when the configuration is explicit |
| `OptOutForm.OptOutFormComponent.SetServerUrl` | projects/tracker/src/lib/directives/matomo-opt-out-form.component.ts:79-94 | Stores the override verbatim, and the getter returns it. Nothing else changes |
| `OptOutForm.OptOutFormComponent.SetHeight` | projects/tracker/src/lib/directives/matomo-opt-out-form.component.ts:104-107 | Stores the coerced size as the height. Nothing else changes |
| `OptOutForm.OptOutFormComponent.SetWidth` | projects/tracker/src/lib/directives/matomo-opt-out-form.component.ts:113-116 | Stores the coerced size as the width. Nothing else changes |
| `OptOutForm.OptOutFormComponent.SetBorder` | projects/tracker/src/lib/directives/matomo-opt-out-form.component.ts:122-125 | Stores the coerced size as the border. Nothing else changes |
| `OptOutForm.OptOutFormComponent.UpdateUrl` | projects/tracker/src/lib/directives/matomo-opt-out-form.component.ts:144-163 | On a usable server URL, stores the trusted filled template, which has the fixed field layout for a verbatim server URL. Otherwise it fails with the missing-server-URL error, whose text is the "MANUAL configuration" message, and keeps the previous address. Only the address is written |
| `OptOutForm.OptOutFormComponent.NgOnInit` | projects/tracker/src/lib/directives/matomo-opt-out-form.component.ts:127-129 | Performs the update: the new address, or the error with the address unchanged |
| `OptOutForm.OptOutFormComponent.NgOnChanges` | projects/tracker/src/lib/directives/matomo-opt-out-form.component.ts:131-142 | Performs the update exactly when the change test holds. Otherwise it succeeds and leaves the address unchanged |

## Left out

- `ngx-matomo-tracker.module.ts` is not part of this model. It holds Angular module registration, dependency-injection providers and an initializer call, with no logic of its own.
- Angular's `DomSanitizer` is not visible here.
  - `sanitize(SecurityContext.RESOURCE_URL, …)` is a function the component receives at construction, returning `None` for `null`.
  - `bypassSecurityTrustResourceUrl` is the `Trusted` constructor.
- `coerceCssSizeBinding`, `isExplicitTrackerConfiguration` and `getTrackersConfiguration` live in files that are not part of this model.
  - The coercion is a function passed at construction.
  - The configuration is passed as whether it is explicit, plus the tracker URLs.
  - An explicit configuration without trackers would make the source throw a `TypeError`, so the constructor requires at least one tracker then.
- The wider `CssSizeInput` type accepted by templates (`ngAcceptInputType_*`) is not modelled. The setters take strings, as declared.
- An absent `LOCALE_ID` is modelled as the declared default `''`. Under Angular's `@Optional` injection a missing provider would give `null` instead. Angular itself always provides `LOCALE_ID`.
- The override test `if (this._serverUrlOverride)` is modelled as "an override is present". A `SafeResourceUrl` is an object, so it is always truthy. An untyped falsy value bound to the input is not modelled.
- JavaScript exceptions are not modelled as such.
  - The thrown `Error` is returned as `Outcome.Fail(MissingServerUrl)`, with its message as a constant.
  - Its propagation out of `ngOnInit` and `ngOnChanges` is the failure result of those methods.
- `encodeURIComponent` throws a `URIError` on lone surrogates. Dafny's `char` cannot hold one, so that case cannot arise.
- Positions and lengths are counted in code points, not UTF-16 code units. This changes nothing for the ASCII placeholders matched here.
- Angular's change detection, the lifecycle scheduling, the HTML template and the iframe rendering are not modelled. `SimpleChanges` is reduced to the set of changed input names.
- The plain getters for `height`, `width`, `border` and `iframeSrc` are not modelled as members. The model reads the fields directly.
- `OptOutUrl.AddressQueryFields` and `OptOutUrl.AddressParams` are stated only for server URLs without `?` or `#`. With either, the reader would place the query elsewhere.
