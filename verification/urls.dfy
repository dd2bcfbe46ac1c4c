/** The two URLs the provider composes: the signed payment iframe address
    (`getIframeSrc`) and the fraud-fingerprint script address
    (`getFraudFingerprintSource`). Both are plain concatenation: nothing spliced
    in is escaped or validated. */
module Urls {
  import opened Php
  import opened Settings

  const PaynowProduction: string := "https://paynow.pmnts.io"
  const PaynowSandbox: string := "https://paynow.pmnts-sandbox.io"

  const FingerprintProduction: string := "https://gateway.pmnts.io/fraud/fingerprint/"
  const FingerprintSandbox: string := "https://gateway.pmnts-sandbox.io/fraud/fingerprint/"
  const ScriptExtension: string := ".js"

  /** What follows the nonce in the signed payload: API version and currency. */
  const PayloadSuffix: string := ":1.0:AUD"
  const ApiPath: string := "/v2/"
  const CurrencyVersion: string := "AUD/1.0/"

  /** The fixed query parameters, without the leading `?`. */
  const IframeFlags: string := LeadingFlags + LastFlag
  const LeadingFlags: string := "show_extras=false&show_email=false&iframe=true&paypal=false&tokenize_only=true&masterpass=false&visacheckout=false&hide_button=true&postmessage=true&return_target=_self"
  const LastFlag: string := "&ajax=true"
  const CssKey: string := "&css="
  const CssSignatureKey: string := "css_signature="

  /** The payment page host: sandbox when `sandbox_mode` is truthy. */
  function PaynowBase(sandboxMode: Option<string>): (base: string)
    ensures base == PaynowSandbox || base == PaynowProduction
    ensures base == PaynowSandbox <==> Truthy(sandboxMode)
  {
    if Truthy(sandboxMode) then PaynowSandbox else PaynowProduction
  }

  /** The string whose HMAC is the iframe signature. */
  function HashPayload(nonce: string): (payload: string)
    ensures |payload| == |nonce| + |PayloadSuffix|
    ensures payload[..|nonce|] == nonce && payload[|nonce|..] == PayloadSuffix
  {
    nonce + PayloadSuffix
  }

  /** The `&css=…&css_signature=…` tail: present only when the CSS setting has a
      positive `strlen`, which includes the falsy value `"0"`. */
  function CssParameters(settings: Settings, hmac: Hmac): (tail: string)
    ensures StrLen(settings.iframeCss) == 0 <==> tail == ""
  {
    if StrLen(settings.iframeCss) > 0 then
      var css := settings.iframeCss.value;
      CssKey + css + "&" + CssSignatureKey + hmac(css, SigningKey(settings))
    else
      ""
  }

  /** The iframe URL for a given nonce, as `getIframeSrc` builds it once the nonce is drawn. */
  function IframeSrc(settings: Settings, nonce: string, hmac: Hmac): (url: string)
    ensures PaynowBase(settings.sandboxMode) <= url
  {
    PaynowBase(settings.sandboxMode) + IframeTail(settings, nonce, hmac)
  }

  /** Everything after the host: signed path, fixed query, optional CSS parameters. */
  function IframeTail(settings: Settings, nonce: string, hmac: Hmac): string {
    SignedPath(settings, nonce, hmac) + "?" + IframeFlags + CssParameters(settings, hmac)
  }

  /** Without a CSS setting the URL ends with the last fixed flag; with one it ends
      with the signature of the CSS URL. */
  lemma IframeSrcEnding(settings: Settings, nonce: string, hmac: Hmac)
    ensures var url := IframeSrc(settings, nonce, hmac);
            && (StrLen(settings.iframeCss) == 0 ==> EndsWith(url, "&ajax=true"))
            && (StrLen(settings.iframeCss) > 0 ==>
                  EndsWith(url, "&css_signature=" + hmac(settings.iframeCss.value, SigningKey(settings))))
  {
    var base := PaynowBase(settings.sandboxMode);
    var path := SignedPath(settings, nonce, hmac);
    var css := CssParameters(settings, hmac);
    var head := base + (path + "?");
    var url := IframeSrc(settings, nonce, hmac);
    Regroup(base, path + "?", IframeFlags, css);
    assert url == head + IframeFlags + css;
    if StrLen(settings.iframeCss) == 0 {
      assert css == "";
      assert url == head + (LeadingFlags + LastFlag);
      Associate(head, LeadingFlags, LastFlag);
      assert url == (head + LeadingFlags) + LastFlag;
      EndsWithConcat(head + LeadingFlags, LastFlag);
    } else {
      var value := settings.iframeCss.value;
      var hash := hmac(value, SigningKey(settings));
      var sig := "&css_signature=" + hash;
      CssRegrouped(CssKey, value, "&", CssSignatureKey, hash);
      assert "&" + CssSignatureKey == "&css_signature=";
      assert css == (CssKey + value) + sig;
      Associate(head + IframeFlags, CssKey + value, sig);
      assert url == (head + IframeFlags + (CssKey + value)) + sig;
      EndsWithConcat(head + IframeFlags + (CssKey + value), sig);
    }
  }

  lemma CssRegrouped(key: string, value: string, amp: string, sigKey: string, hash: string)
    ensures key + value + amp + sigKey + hash == (key + value) + ((amp + sigKey) + hash)
  {
  }

  /** `/v2/{username}/{nonce}/AUD/1.0/{hash}`: the path between the host and the query. */
  function SignedPath(settings: Settings, nonce: string, hmac: Hmac): string {
    ApiPath + Interp(settings.username) + "/" + nonce + "/" + CurrencyVersion
      + hmac(HashPayload(nonce), SigningKey(settings))
  }

  /** The fraud-fingerprint script URL. */
  function FraudFingerprintSource(settings: Settings): (url: string)
    ensures EndsWith(url, ScriptExtension)
    ensures Truthy(settings.sandboxMode) ==> FingerprintSandbox <= url
    ensures !Truthy(settings.sandboxMode) ==> FingerprintProduction <= url
  {
    var username := Interp(settings.username);
    if Truthy(settings.sandboxMode) then
      FingerprintSandbox + username + ScriptExtension
    else
      FingerprintProduction + username + ScriptExtension
  }

  predicate EndsWith(s: string, suffix: string) {
    |suffix| <= |s| && s[|s| - |suffix|..] == suffix
  }

  lemma Associate(a: string, b: string, c: string)
    ensures a + (b + c) == a + b + c
  {
  }

  /** Concatenation regrouped, for the proofs below. */
  lemma Regroup(a: string, b: string, c: string, d: string)
    ensures a + (b + c + d) == a + b + c + d
  {
  }

  lemma EndsWithConcat(s: string, suffix: string)
    ensures EndsWith(s + suffix, suffix)
  {
    assert (s + suffix)[|s|..] == suffix;
  }

  /** Switching `sandbox_mode` changes only the host at the front of the iframe URL:
      what follows the host is the same for either value. */
  lemma SandboxChangesOnlyIframeHost(settings: Settings, nonce: string, hmac: Hmac, sandboxMode: Option<string>)
    ensures var toggled := settings.(sandboxMode := sandboxMode);
            var url := IframeSrc(settings, nonce, hmac);
            var url' := IframeSrc(toggled, nonce, hmac);
            url[|PaynowBase(settings.sandboxMode)|..] == url'[|PaynowBase(sandboxMode)|..]
  {
  }

  /** Switching `sandbox_mode` changes only the host of the fingerprint URL. */
  lemma SandboxChangesOnlyFingerprintHost(settings: Settings, sandboxMode: Option<string>)
    ensures var toggled := settings.(sandboxMode := sandboxMode);
            var url := FraudFingerprintSource(settings);
            var url' := FraudFingerprintSource(toggled);
            var host := if Truthy(settings.sandboxMode) then FingerprintSandbox else FingerprintProduction;
            var host' := if Truthy(sandboxMode) then FingerprintSandbox else FingerprintProduction;
            url[|host|..] == url'[|host'|..]
  {
  }

  /** The CSS setting only ever appends: the URL with a CSS value is the URL
      without one, followed by the CSS URL and its own signature, exactly when the
      value has a positive length. */
  lemma CssOnlyAppends(settings: Settings, nonce: string, hmac: Hmac)
    ensures var plain := IframeSrc(settings.(iframeCss := None), nonce, hmac);
            var url := IframeSrc(settings, nonce, hmac);
            && (StrLen(settings.iframeCss) == 0 ==> url == plain)
            && (StrLen(settings.iframeCss) > 0 ==>
                  url == plain + "&css=" + settings.iframeCss.value
                             + "&css_signature=" + hmac(settings.iframeCss.value, SigningKey(settings)))
  {
    var base := PaynowBase(settings.sandboxMode);
    var path := SignedPath(settings, nonce, hmac);
    assert SignedPath(settings.(iframeCss := None), nonce, hmac) == path;
    var css := CssParameters(settings, hmac);
    Regroup(base, path + "?", IframeFlags, css);
    Regroup(base, path + "?", IframeFlags, "");
    if StrLen(settings.iframeCss) > 0 {
      var value := settings.iframeCss.value;
      var sig := hmac(value, SigningKey(settings));
      var plain := base + (path + "?") + IframeFlags;
      assert css == CssKey + value + "&" + CssSignatureKey + sig;
      assert "&css=" + value + "&css_signature=" + sig == css;
      assert plain + "" == plain;
      Regroup(plain, "&css=" + value, "&css_signature=", sig);
      Regroup(plain, "&css=", value, "&css_signature=");
    }
  }

  /** Two iframe URLs for the same settings and different nonces agree everywhere
      except in the nonce and in the signature over it. */
  lemma NonceChangesOnlyNonceAndSignature(settings: Settings, nonce: string, nonce': string, hmac: Hmac)
    ensures exists head, tail ::
              && IframeSrc(settings, nonce, hmac)
                   == head + nonce + "/AUD/1.0/" + hmac(nonce + ":1.0:AUD", SigningKey(settings)) + tail
              && IframeSrc(settings, nonce', hmac)
                   == head + nonce' + "/AUD/1.0/" + hmac(nonce' + ":1.0:AUD", SigningKey(settings)) + tail
  {
    var head := PaynowBase(settings.sandboxMode) + ApiPath + Interp(settings.username) + "/";
    var tail := "?" + IframeFlags + CssParameters(settings, hmac);
    SignedUrlShape(settings, nonce, hmac, head, tail);
    SignedUrlShape(settings, nonce', hmac, head, tail);
  }

  lemma SignedUrlShape(settings: Settings, nonce: string, hmac: Hmac, head: string, tail: string)
    requires head == PaynowBase(settings.sandboxMode) + ApiPath + Interp(settings.username) + "/"
    requires tail == "?" + IframeFlags + CssParameters(settings, hmac)
    ensures IframeSrc(settings, nonce, hmac)
              == head + nonce + "/AUD/1.0/" + hmac(nonce + ":1.0:AUD", SigningKey(settings)) + tail
  {
    var hash := hmac(HashPayload(nonce), SigningKey(settings));
    ShapeRegrouped(PaynowBase(settings.sandboxMode), ApiPath, Interp(settings.username), "/", nonce,
                   CurrencyVersion, hash, "?", IframeFlags, CssParameters(settings, hmac));
    assert "/" + CurrencyVersion == "/AUD/1.0/";
  }

  lemma ShapeRegrouped(base: string, api: string, user: string, slash: string, nonce: string,
                       cv: string, hash: string, q: string, flags: string, css: string)
    ensures base + (api + user + slash + nonce + slash + cv + hash + q + flags + css)
              == base + api + user + slash + nonce + (slash + cv) + hash + (q + flags + css)
  {
  }

  /** A worked instance: user `demo`, secret `s3cr3t`, sandbox on, nonce `abcde`, no CSS. */
  lemma SandboxExample(hmac: Hmac)
    ensures IframeSrc(Settings(Some("demo"), Some("s3cr3t"), Some("1"), None, None, None), "abcde", hmac)
              == "https://paynow.pmnts-sandbox.io/v2/demo/abcde/AUD/1.0/" + hmac("abcde:1.0:AUD", "s3cr3t")
                 + "?" + IframeFlags
  {
    SandboxExampleGrouped(hmac);
    Associate("https://paynow.pmnts-sandbox.io/v2/demo/abcde/AUD/1.0/" + hmac("abcde:1.0:AUD", "s3cr3t"),
              "?", IframeFlags);
  }

  lemma SandboxExampleGrouped(hmac: Hmac)
    ensures IframeSrc(Settings(Some("demo"), Some("s3cr3t"), Some("1"), None, None, None), "abcde", hmac)
              == "https://paynow.pmnts-sandbox.io/v2/demo/abcde/AUD/1.0/" + hmac("abcde:1.0:AUD", "s3cr3t")
                 + ("?" + IframeFlags)
  {
    var settings := Settings(Some("demo"), Some("s3cr3t"), Some("1"), None, None, None);
    var head := PaynowSandbox + ApiPath + "demo" + "/";
    var tail := "?" + IframeFlags + "";
    ExampleParts(hmac);
    SignedUrlShape(settings, "abcde", hmac, head, tail);
  }

  lemma ExampleParts(hmac: Hmac)
    ensures var settings := Settings(Some("demo"), Some("s3cr3t"), Some("1"), None, None, None);
            && PaynowBase(settings.sandboxMode) == PaynowSandbox
            && Interp(settings.username) == "demo"
            && SigningKey(settings) == "s3cr3t"
            && CssParameters(settings, hmac) == ""
            && "?" + IframeFlags + "" == "?" + IframeFlags
            && "abcde" + ":1.0:AUD" == "abcde:1.0:AUD"
            && PaynowSandbox + ApiPath + "demo" + "/" + "abcde" + "/AUD/1.0/"
                 == "https://paynow.pmnts-sandbox.io/v2/demo/abcde/AUD/1.0/"
  {
  }
}
