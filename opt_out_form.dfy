/**
 * The opt-out form component (matomo-opt-out-form.component.ts): its state,
 * its input setters, its lifecycle hooks and `updateUrl`, which resolves the
 * server URL, fails when there is none, and otherwise stores the filled
 * template as the trusted iframe address.
 *
 * Angular's `DomSanitizer.sanitize` and the `coerceCssSizeBinding` helper are
 * not visible here; the component receives them as functions at construction.
 * `bypassSecurityTrustResourceUrl` is the `Trusted` constructor.
 */
module OptOutForm {
  import opened Wrappers
  import opened JsString
  import opened OptOutUrl

  /** A resource URL marked as safe to load as an iframe `src`. */
  datatype SafeResourceUrl = Trusted(url: string)

  /** The one error `updateUrl` throws. */
  datatype FormError = MissingServerUrl

  /** A value, or the error thrown instead of returning it. */
  datatype Result<+T> = Ok(value: T) | Err(error: FormError)

  const MISSING_SERVER_URL_MESSAGE := "It is required to set [serverUrl] when Matomo configuration mode is set to MANUAL"

  /** The text of the error thrown for `e`. */
  function Message(e: FormError): string {
    match e
    case MissingServerUrl => MISSING_SERVER_URL_MESSAGE
  }

  const DEFAULT_BORDER := "0"
  const DEFAULT_WIDTH := "600px"
  const DEFAULT_HEIGHT := "200px"

  /** The names of the inputs whose change makes the address stale. */
  const URL_INPUTS: set<string> := {"serverUrl", "locale", "color", "backgroundColor", "fontSize", "fontFamily"}

  /**
   * The server URL `updateUrl` works with: a present override is sanitized
   * and used, whatever it gives; only without an override is the default
   * from the configuration used.
   */
  function ResolveServerUrl(defaultUrl: Option<string>, serverUrlOverride: Option<SafeResourceUrl>,
                            sanitize: SafeResourceUrl -> Option<string>): Option<string>
  {
    if serverUrlOverride.Some? then sanitize(serverUrlOverride.value) else defaultUrl
  }

  /** A resolved server URL passes the truthiness test: neither missing nor empty. */
  predicate Usable(serverUrl: Option<string>) {
    serverUrl.Some? && serverUrl.value != ""
  }

  /**
   * What `updateUrl` produces from the component's state: the new iframe
   * address, or the error it throws.
   */
  function RefreshedSrc(defaultUrl: Option<string>, serverUrlOverride: Option<SafeResourceUrl>,
                        sanitize: SafeResourceUrl -> Option<string>, locale: string, color: string,
                        backgroundColor: string, fontSize: string, fontFamily: string): Result<SafeResourceUrl>
  {
    var serverUrl := ResolveServerUrl(defaultUrl, serverUrlOverride, sanitize);
    if Usable(serverUrl) then Ok(Trusted(BuildUrl(serverUrl.value, locale, color, backgroundColor, fontSize, fontFamily)))
    else Err(MissingServerUrl)
  }

  /**
   * With a usable server URL that is inserted verbatim, the new address is the
   * server URL followed by the script path and the seven query fields.
   */
  lemma RefreshedLayout(defaultUrl: Option<string>, serverUrlOverride: Option<SafeResourceUrl>,
                        sanitize: SafeResourceUrl -> Option<string>, locale: string, color: string,
                        backgroundColor: string, fontSize: string, fontFamily: string)
    requires var s := ResolveServerUrl(defaultUrl, serverUrlOverride, sanitize);
      Usable(s) && InsertedVerbatim(s.value)
    ensures var s := ResolveServerUrl(defaultUrl, serverUrlOverride, sanitize);
      RefreshedSrc(defaultUrl, serverUrlOverride, sanitize, locale, color, backgroundColor, fontSize, fontFamily) ==
      Ok(Trusted(OptOutAddress(s.value, locale, color, backgroundColor, fontSize, fontFamily)))
  {
    var s := ResolveServerUrl(defaultUrl, serverUrlOverride, sanitize);
    BuildUrlLayout(s.value, locale, color, backgroundColor, fontSize, fontFamily);
  }

  /** Without an override and without a configured tracker URL, `updateUrl` throws. */
  lemma NoServerUrlFails(sanitize: SafeResourceUrl -> Option<string>, locale: string, color: string,
                         backgroundColor: string, fontSize: string, fontFamily: string)
    ensures RefreshedSrc(None, None, sanitize, locale, color, backgroundColor, fontSize, fontFamily) ==
            Err(MissingServerUrl)
  {}

  /**
   * A present override decides alone: its sanitized value is the server URL
   * for every default, and a sanitized value that is missing or empty makes
   * `updateUrl` throw even when a default exists.
   */
  lemma OverrideWins(defaultUrl: Option<string>, o: SafeResourceUrl, sanitize: SafeResourceUrl -> Option<string>,
                     locale: string, color: string, backgroundColor: string, fontSize: string, fontFamily: string)
    ensures Usable(sanitize(o)) ==>
      RefreshedSrc(defaultUrl, Some(o), sanitize, locale, color, backgroundColor, fontSize, fontFamily) ==
      Ok(Trusted(BuildUrl(sanitize(o).value, locale, color, backgroundColor, fontSize, fontFamily)))
    ensures !Usable(sanitize(o)) ==>
      RefreshedSrc(defaultUrl, Some(o), sanitize, locale, color, backgroundColor, fontSize, fontFamily) ==
      Err(MissingServerUrl)
  {}

  /** Without an override the configured default is the server URL; an empty one fails. */
  lemma DefaultWithoutOverride(defaultUrl: Option<string>, sanitize: SafeResourceUrl -> Option<string>,
                               locale: string, color: string, backgroundColor: string, fontSize: string,
                               fontFamily: string)
    ensures Usable(defaultUrl) ==>
      RefreshedSrc(defaultUrl, None, sanitize, locale, color, backgroundColor, fontSize, fontFamily) ==
      Ok(Trusted(BuildUrl(defaultUrl.value, locale, color, backgroundColor, fontSize, fontFamily)))
    ensures !Usable(defaultUrl) ==>
      RefreshedSrc(defaultUrl, None, sanitize, locale, color, backgroundColor, fontSize, fontFamily) ==
      Err(MissingServerUrl)
  {}

  /** The change test of `ngOnChanges`: one of the six address inputs is among the changed names. */
  predicate TriggersUpdate(changes: set<string>) {
    "serverUrl" in changes || "locale" in changes || "color" in changes ||
    "backgroundColor" in changes || "fontSize" in changes || "fontFamily" in changes
  }

  /** The change test holds exactly when the changed names meet the address inputs. */
  lemma TriggersUpdateIff(changes: set<string>)
    ensures TriggersUpdate(changes) <==> changes * URL_INPUTS != {}
  {
    if TriggersUpdate(changes) {
      var k :| k in changes && k in URL_INPUTS;
      assert k in changes * URL_INPUTS;
    } else {
      forall k | k in URL_INPUTS
        ensures k !in changes
      {
        assert k == "serverUrl" || k == "locale" || k == "color" ||
               k == "backgroundColor" || k == "fontSize" || k == "fontFamily";
      }
      assert changes * URL_INPUTS == {};
    }
  }

  /** Changing only the frame size or border never recomputes the address. */
  lemma SizeChangesDoNotTrigger(changes: set<string>)
    requires changes <= {"border", "width", "height"}
    ensures !TriggersUpdate(changes)
  {}

  /**
   * The component.  `locale`, `color`, `backgroundColor`, `fontSize` and
   * `fontFamily` are plain inputs the host assigns; `serverUrl`, `height`,
   * `width` and `border` go through setters.
   */
  class OptOutFormComponent {
    const sanitize: SafeResourceUrl -> Option<string>
    const coerceCssSize: string -> string
    /** The first tracker's URL under an explicit tracker configuration. */
    const defaultServerUrl: Option<string>

    var border: string
    var width: string
    var height: string
    var iframeSrc: SafeResourceUrl
    var serverUrlOverride: Option<SafeResourceUrl>

    var locale: string
    var color: string
    var backgroundColor: string
    var fontSize: string
    var fontFamily: string

    /**
     * `explicitConfig` and `trackerUrls` are what the configuration helpers
     * report; an explicit configuration has at least one tracker.  A missing
     * `LOCALE_ID` falls back to the empty locale.
     */
    constructor(sanitize: SafeResourceUrl -> Option<string>, coerceCssSize: string -> string,
                explicitConfig: bool, trackerUrls: seq<string>, localeId: Option<string>)
      requires explicitConfig ==> |trackerUrls| > 0
      ensures this.sanitize == sanitize && this.coerceCssSize == coerceCssSize
      ensures defaultServerUrl == if explicitConfig then Some(trackerUrls[0]) else None
      ensures border == DEFAULT_BORDER && width == DEFAULT_WIDTH && height == DEFAULT_HEIGHT
      ensures iframeSrc == Trusted("") && serverUrlOverride == None
      ensures locale == (if localeId.Some? then localeId.value else "")
      ensures color == "" && backgroundColor == "" && fontSize == "" && fontFamily == ""
    {
      this.sanitize := sanitize;
      this.coerceCssSize := coerceCssSize;
      border := DEFAULT_BORDER;
      width := DEFAULT_WIDTH;
      height := DEFAULT_HEIGHT;
      iframeSrc := Trusted("");
      color := "";
      backgroundColor := "";
      fontSize := "";
      fontFamily := "";
      locale := if localeId.Some? then localeId.value else "";
      if explicitConfig {
        defaultServerUrl := Some(trackerUrls[0]);
      } else {
        defaultServerUrl := None;
      }
      serverUrlOverride := None;
    }

    /** The `serverUrl` getter: the override exactly as it was set. */
    function ServerUrl(): Option<SafeResourceUrl>
      reads this
    {
      serverUrlOverride
    }

    /** What `updateUrl` would do in the current state. */
    function Refreshed(): Result<SafeResourceUrl>
      reads this
    {
      RefreshedSrc(defaultServerUrl, serverUrlOverride, sanitize, locale, color, backgroundColor, fontSize, fontFamily)
    }

    method SetServerUrl(value: Option<SafeResourceUrl>)
      modifies this`serverUrlOverride
      ensures serverUrlOverride == value && ServerUrl() == value
    {
      serverUrlOverride := value;
    }

    method SetHeight(value: string)
      modifies this`height
      ensures height == coerceCssSize(value)
    {
      height := coerceCssSize(value);
    }

    method SetWidth(value: string)
      modifies this`width
      ensures width == coerceCssSize(value)
    {
      width := coerceCssSize(value);
    }

    method SetBorder(value: string)
      modifies this`border
      ensures border == coerceCssSize(value)
    {
      border := coerceCssSize(value);
    }

    /**
     * `updateUrl`: on success the iframe address is the filled template, and
     * for a server URL inserted verbatim the fixed field layout; when the
     * resolved server URL is missing or empty it throws and the address
     * stays as it was.  Nothing but the address is written.
     */
    method UpdateUrl() returns (r: Outcome<FormError>)
      modifies this`iframeSrc
      ensures Refreshed().Ok? ==> r == Pass && iframeSrc == Refreshed().value
      ensures Refreshed().Err? ==> r == Fail(MissingServerUrl) && iframeSrc == old(iframeSrc)
      ensures r.Fail? ==> Message(r.error) == MISSING_SERVER_URL_MESSAGE
      ensures var s := ResolveServerUrl(defaultServerUrl, serverUrlOverride, sanitize);
        r.Pass? && InsertedVerbatim(s.value) ==>
          iframeSrc == Trusted(OptOutAddress(s.value, locale, color, backgroundColor, fontSize, fontFamily))
    {
      var serverUrl := defaultServerUrl;
      if serverUrlOverride.Some? {
        serverUrl := sanitize(serverUrlOverride.value);
      }
      if serverUrl.None? || serverUrl.value == "" {
        return Fail(MissingServerUrl);
      }
      var url := BuildUrl(serverUrl.value, locale, color, backgroundColor, fontSize, fontFamily);
      iframeSrc := Trusted(url);
      if InsertedVerbatim(serverUrl.value) {
        RefreshedLayout(defaultServerUrl, serverUrlOverride, sanitize, locale, color, backgroundColor, fontSize, fontFamily);
      }
      r := Pass;
    }

    /** `ngOnInit`: computes the first address. */
    method NgOnInit() returns (r: Outcome<FormError>)
      modifies this`iframeSrc
      ensures Refreshed().Ok? ==> r == Pass && iframeSrc == Refreshed().value
      ensures Refreshed().Err? ==> r == Fail(MissingServerUrl) && iframeSrc == old(iframeSrc)
    {
      r := UpdateUrl();
    }

    /**
     * `ngOnChanges`: recomputes the address exactly when one of the six
     * address inputs is among the changed names; otherwise nothing changes.
     */
    method NgOnChanges(changes: set<string>) returns (r: Outcome<FormError>)
      modifies this`iframeSrc
      ensures TriggersUpdate(changes) && Refreshed().Ok? ==> r == Pass && iframeSrc == Refreshed().value
      ensures TriggersUpdate(changes) && Refreshed().Err? ==>
        r == Fail(MissingServerUrl) && iframeSrc == old(iframeSrc)
      ensures !TriggersUpdate(changes) ==> r == Pass && iframeSrc == old(iframeSrc)
    {
      if TriggersUpdate(changes) {
        r := UpdateUrl();
      } else {
        r := Pass;
      }
    }
  }
}
