/** A reader for the two URLs, the inverse of their composition: it takes a URL
    apart into the values that were spliced into it.
    Since nothing is escaped, it can only recover them when the spliced values do
    not contain the characters that delimit them; the round-trip lemmas name
    exactly those conditions. */
module UrlParser {
  import opened Php
  import opened Settings
  import opened Strings
  import opened Urls

  datatype CssParam = CssParam(url: string, signature: string)

  /** What the payment page reads from an iframe URL. */
  datatype IframeRequest = IframeRequest(
    sandbox: bool,
    username: string,
    nonce: string,
    hash: string,
    css: Option<CssParam>
  )

  function StripPrefix(s: string, prefix: string): (r: Option<string>)
    ensures r.Some? <==> prefix <= s
    ensures r.Some? ==> s == prefix + r.value
  {
    if prefix <= s then Some(s[|prefix|..]) else None
  }

  /** Which payment host the URL names, and what follows it. */
  function ParsePaynowHost(url: string): Option<(bool, string)> {
    if PaynowSandbox <= url then Some((true, url[|PaynowSandbox|..]))
    else if PaynowProduction <= url then Some((false, url[|PaynowProduction|..]))
    else None
  }

  /** The optional `&css=…&css_signature=…` parameters after the fixed flags. */
  function ParseCssParameters(s: string): Option<Option<CssParam>> {
    if s == "" then Some(None)
    else
      var afterKey :- StripPrefix(s, CssKey);
      var parts :- SplitAt(afterKey, '&');
      var signature :- StripPrefix(parts.1, CssSignatureKey);
      Some(Some(CssParam(parts.0, signature)))
  }

  function ParseIframeSrc(url: string): Option<IframeRequest> {
    var host :- ParsePaynowHost(url);
    ParseIframeTail(host.0, host.1)
  }

  /** Everything after the host: `/v2/{username}/{nonce}/AUD/1.0/{hash}?{flags}{css}`. */
  function ParseIframeTail(sandbox: bool, tail: string): Option<IframeRequest> {
    var afterApi :- StripPrefix(tail, ApiPath);
    var user :- SplitAt(afterApi, '/');
    var nonce :- SplitAt(user.1, '/');
    var afterVersion :- StripPrefix(nonce.1, CurrencyVersion);
    var hash :- SplitAt(afterVersion, '?');
    var afterFlags :- StripPrefix(hash.1, IframeFlags);
    var css :- ParseCssParameters(afterFlags);
    Some(IframeRequest(sandbox, user.0, nonce.0, hash.0, css))
  }

  /** The request carries valid signatures under `key`: over the nonce payload,
      and over the CSS URL when there is one. */
  predicate Authentic(request: IframeRequest, key: string, hmac: Hmac) {
    && request.hash == hmac(HashPayload(request.nonce), key)
    && (request.css.Some? ==> request.css.value.signature == hmac(request.css.value.url, key))
  }

  /** The iframe URL gives back the sandbox flag, the username, the nonce, the
      signature over the nonce payload and the CSS parameters it was built from,
      and the request is authentic under the shared secret. This needs the
      username and the nonce to be free of `/`, the signature free of `?` and
      the CSS URL free of `&`: the source does not escape them. */
  lemma {:induction false} IframeSrcRoundTrip(settings: Settings, nonce: string, hmac: Hmac)
    requires '/' !in Interp(settings.username)
    requires '/' !in nonce
    requires '?' !in hmac(HashPayload(nonce), SigningKey(settings))
    requires StrLen(settings.iframeCss) > 0 ==> '&' !in settings.iframeCss.value
    ensures var key := SigningKey(settings);
            var css := if StrLen(settings.iframeCss) > 0
                       then Some(CssParam(settings.iframeCss.value, hmac(settings.iframeCss.value, key)))
                       else None;
            ParseIframeSrc(IframeSrc(settings, nonce, hmac))
              == Some(IframeRequest(Truthy(settings.sandboxMode), Interp(settings.username), nonce,
                                    hmac(HashPayload(nonce), key), css))
    ensures Authentic(ParseIframeSrc(IframeSrc(settings, nonce, hmac)).value, SigningKey(settings), hmac)
  {
    var key := SigningKey(settings);
    var hash := hmac(HashPayload(nonce), key);
    var cssTail := CssParameters(settings, hmac);
    var rest := IframeTail(settings, nonce, hmac);
    PaynowHostOf(settings.sandboxMode, rest);
    TailRoundTrip(Truthy(settings.sandboxMode), Interp(settings.username), nonce, hash, cssTail);
    CssRoundTrip(settings, hmac);
  }

  /** The path and query after the host give back the username, nonce and
      signature, and hand the rest to the CSS reader. */
  lemma TailRoundTrip(sandbox: bool, user: string, nonce: string, hash: string, cssTail: string)
    requires '/' !in user && '/' !in nonce && '?' !in hash
    ensures var tail := ApiPath + user + "/" + nonce + "/" + CurrencyVersion + hash + "?" + IframeFlags + cssTail;
            var css := ParseCssParameters(cssTail);
            ParseIframeTail(sandbox, tail)
              == if css.None? then None else Some(IframeRequest(sandbox, user, nonce, hash, css.value))
  {
    var afterFlags := cssTail;
    var afterHash := IframeFlags + afterFlags;
    var afterVersion := hash + ['?'] + afterHash;
    var afterNonce := CurrencyVersion + afterVersion;
    var afterUser := nonce + ['/'] + afterNonce;
    var afterApi := user + ['/'] + afterUser;
    TailRegrouped(ApiPath, user, nonce, CurrencyVersion, hash, IframeFlags, cssTail);
    assert StripPrefix(ApiPath + afterApi, ApiPath) == Some(afterApi);
    SplitAtJoin(user, '/', afterUser);
    SplitAtJoin(nonce, '/', afterNonce);
    assert StripPrefix(afterNonce, CurrencyVersion) == Some(afterVersion);
    SplitAtJoin(hash, '?', afterHash);
    assert StripPrefix(afterHash, IframeFlags) == Some(afterFlags);
  }

  /** The CSS parameters give back the CSS URL and its signature when present. */
  lemma CssRoundTrip(settings: Settings, hmac: Hmac)
    requires StrLen(settings.iframeCss) > 0 ==> '&' !in settings.iframeCss.value
    ensures ParseCssParameters(CssParameters(settings, hmac))
              == if StrLen(settings.iframeCss) > 0
                 then Some(Some(CssParam(settings.iframeCss.value, hmac(settings.iframeCss.value, SigningKey(settings)))))
                 else Some(None)
  {
    var cssTail := CssParameters(settings, hmac);
    if StrLen(settings.iframeCss) > 0 {
      var value := settings.iframeCss.value;
      var signature := hmac(value, SigningKey(settings));
      var afterKey := value + ['&'] + (CssSignatureKey + signature);
      assert cssTail == CssKey + afterKey;
      assert StripPrefix(cssTail, CssKey) == Some(afterKey);
      SplitAtJoin(value, '&', CssSignatureKey + signature);
      assert StripPrefix(CssSignatureKey + signature, CssSignatureKey) == Some(signature);
    }
  }

  /** The host is recognised as the one `sandbox_mode` selected, whatever follows it. */
  lemma PaynowHostOf(sandboxMode: Option<string>, rest: string)
    ensures ParsePaynowHost(PaynowBase(sandboxMode) + rest) == Some((Truthy(sandboxMode), rest))
  {
    var url := PaynowBase(sandboxMode) + rest;
    if !Truthy(sandboxMode) {
      assert url[20] == '.' != PaynowSandbox[20];
    }
  }

  lemma TailRegrouped(api: string, user: string, nonce: string, cv: string, hash: string,
                      flags: string, css: string)
    ensures api + user + "/" + nonce + "/" + cv + hash + "?" + flags + css
              == api + (user + ['/'] + (nonce + ['/'] + (cv + (hash + ['?'] + (flags + css)))))
  {
  }

  /** Which fingerprint host the URL names, and the username between the fixed path and `.js`. */
  function ParseFingerprintSource(url: string): Option<(bool, string)> {
    var host :-
      if FingerprintSandbox <= url then Some((true, url[|FingerprintSandbox|..]))
      else if FingerprintProduction <= url then Some((false, url[|FingerprintProduction|..]))
      else None;
    if EndsWith(host.1, ScriptExtension)
    then Some((host.0, host.1[..|host.1| - |ScriptExtension|]))
    else None
  }

  /** The fingerprint URL gives back the sandbox flag and the username it was
      built from, whatever the username contains: the fixed prefix and the fixed
      `.js` suffix delimit it. */
  lemma {:induction false} FingerprintRoundTrip(settings: Settings)
    ensures ParseFingerprintSource(FraudFingerprintSource(settings))
              == Some((Truthy(settings.sandboxMode), Interp(settings.username)))
  {
    var url := FraudFingerprintSource(settings);
    var user := Interp(settings.username);
    var host := if Truthy(settings.sandboxMode) then FingerprintSandbox else FingerprintProduction;
    assert url == host + (user + ScriptExtension);
    if !Truthy(settings.sandboxMode) {
      assert url[21] == '.' != FingerprintSandbox[21];
    }
    assert url[|host|..] == user + ScriptExtension;
    assert (user + ScriptExtension)[..|user|] == user;
  }
}
