# PMNTS gateway checkout configuration, modelled in Dafny

This project models `PmntsConfigProvider`, the checkout configuration provider of
the PMNTS payment module for Magento 2. For every checkout page it builds the
`payment.pmntsGateway` block that the front end reads:

- `iframeSrc`: the address of the hosted payment page. Its path carries an HMAC-MD5,
  under the merchant's shared secret, of the payload `nonce:1.0:AUD`, where the nonce
  is a random five-character string. When a stylesheet is configured, the query also
  carries a second HMAC, of the stylesheet URL, as `css_signature`;
- `fraudFingerprintSrc`: the address of the fraud-fingerprint script;
- `isIframeEnabled`, `isSandbox`, `canSaveCard`, `customerHasSavedCC`: flags
  derived from the merchant settings, the customer session and the customer's
  saved payment tokens;
- `ccVaultCode`: the vault method code, a constant.

The model is functional. Merchant settings are one record of `Option<string>` values,
where `None` stands for PHP `null`. The PHP rules the code depends on are defined once
in module `Php`:
- truthiness: `null`, `""` and `"0"` are false;
- `strlen(null)` is 0;
- `null` interpolates as the empty string.

Three things the code gets from outside become parameters:
- HMAC-MD5 becomes a function `Hmac = (payload, key) -> string`;
- `str_shuffle` becomes the shuffled string itself, required to be a permutation of
  its argument. The operations state this by character counts (`Nonce.IsPoolShuffle`),
  and `Nonce.PoolShuffleCharacterised` proves that the counts say exactly that;
- the vault's `getVisibleAvailableTokens` becomes a function from customer id to a
  sequence of tokens.

Modules, leaves first:

| file | module | contents |
|---|---|---|
| php.dfy | `Php` | `Option`, truthiness, `strlen`, interpolation, `substr` |
| strings.dfy | `Strings` | splitting at the first occurrence of a character |
| settings.dfy | `Settings` | the settings record, the `Hmac` type, the signing key |
| nonce.dfy | `Nonce` | the nonce of line 86 and the exact set of nonces it can produce |
| urls.dfy | `Urls` | the iframe URL and the fingerprint URL, and how they depend on each setting |
| url_parser.dfy | `UrlParser` | a reference reader that takes both URLs apart again (round trips) |
| customer.dfy | `Customer` | `canSaveCard`, and `customerHasSavedCC` as a loop |
| config_provider.dfy | `ConfigProvider` | `getConfig` |

For each URL, `UrlParser` holds a reader that takes the URL apart again. A round-trip
lemma shows that the reader gets back every value spliced into the URL. The code escapes
nothing. So the iframe round trip holds only under these conditions:
- the username and the nonce contain no `/`;
- the signature contains no `?`;
- the CSS URL contains no `&`.

Well-formed nonces and hex digests meet their conditions. Usernames and CSS URLs are
whatever the merchant typed. The fingerprint URL needs no condition.

Details of the code that the model keeps as written:
- `isSandbox` is the raw `sandbox_mode` value, passed through uncoerced. Only the
  URL hosts are chosen by its truthiness.
- The `(bool)` cast in `getIframeEnabled` applies to `iframe_tokenization`. It does
  not apply to `sandbox_mode`.
- The CSS parameters are appended when `strlen` of the setting is positive. This
  differs from truthiness: a stylesheet setting of `"0"` is appended
  (`Php.StrLenVersusTruthy`).
- The nonce is not drawn character by character. It is the first five characters of
  a shuffle of the alphabet `0-9a-z` written out five times. Each character can
  occur at most five times, so every five-character string over the alphabet can
  still arise (`Nonce.NonceIsReachable`).

## Model

| member | source | states |
|---|---|---|
| Php.StrLenVersusTruthy | Model/Config/PmntsConfigProvider.php:98-99 | a truthy setting has positive `strlen`; a setting with positive `strlen` is falsy exactly when it is `"0"`, so the CSS test and a truthiness test differ only there |
| Php.Substr | Model/Config/PmntsConfigProvider.php:86 | `substr(s, 0, n)` is a prefix of `s` of length `min(n, strlen(s))` |
| Nonce.Repeat | Model/Config/PmntsConfigProvider.php:86 | `str_repeat(s, n)` has length `n * strlen(s)` and holds only characters of `s` |
| Nonce.RepeatOccurrences | Model/Config/PmntsConfigProvider.php:86 | each character occurs in `str_repeat(s, n)` exactly `n` times as often as in `s` |
| Nonce.NonceOf | Model/Config/PmntsConfigProvider.php:86 | the nonce is a prefix of the shuffled string |
| Nonce.PoolShuffleCharacterised | Model/Config/PmntsConfigProvider.php:86 | a string is a permutation of the alphabet repeated five times exactly when it holds each of the 36 characters five times and nothing else |
| Nonce.PoolCounts | Model/Config/PmntsConfigProvider.php:86 | the repeated alphabet holds each of its characters exactly five times and no other character |
| Nonce.NonceIsWellFormed | Model/Config/PmntsConfigProvider.php:86 | for every permutation of the five-fold alphabet, the nonce has exactly 5 characters, all in `0-9a-z` |
| Nonce.NonceIsReachable | Model/Config/PmntsConfigProvider.php:86 | conversely, every 5-character string over `0-9a-z` is the nonce of some permutation of the pool |
| Nonce.NonceFitsPool | Model/Config/PmntsConfigProvider.php:86 | a well-formed nonce uses each character no more often than the pool holds it |
| Urls.PaynowBase | Model/Config/PmntsConfigProvider.php:90-93 | the base is one of the two payment hosts, and it is the sandbox host exactly when `sandbox_mode` is truthy |
| Urls.HashPayload | Model/Config/PmntsConfigProvider.php:87 | the signed payload is the nonce followed by `:1.0:AUD` |
| Urls.CssParameters | Model/Config/PmntsConfigProvider.php:97-102 | the CSS tail is empty exactly when `strlen` of the CSS setting is 0 |
| Urls.IframeSrc | Model/Config/PmntsConfigProvider.php:81-105 | the iframe URL starts with the base that `sandbox_mode` selects |
| Urls.IframeSrcEnding | Model/Config/PmntsConfigProvider.php:95-104 | without a CSS setting the URL ends with `&ajax=true`; with one it ends with `&css_signature=` and the HMAC of the CSS URL under the shared secret |
| Urls.SignedUrlShape | Model/Config/PmntsConfigProvider.php:86-95 | the URL is host, `/v2/`, username and `/`, then the nonce, `/AUD/1.0/`, `Hmac(nonce + ":1.0:AUD", secret)`, then the fixed query and the CSS tail |
| Urls.NonceChangesOnlyNonceAndSignature | Model/Config/PmntsConfigProvider.php:86-95 | two URLs built from the same settings with different nonces agree everywhere except in the nonce and its signature |
| Urls.SandboxChangesOnlyIframeHost | Model/Config/PmntsConfigProvider.php:83-95 | changing `sandbox_mode` leaves everything after the host of the iframe URL unchanged |
| Urls.CssOnlyAppends | Model/Config/PmntsConfigProvider.php:97-104 | with an empty or absent CSS setting the URL is the line-95 URL; otherwise it is that URL followed by `&css=`, the CSS URL, `&css_signature=` and the CSS URL's HMAC |
| Urls.SandboxExample | Model/Config/PmntsConfigProvider.php:86-95 | for user `demo`, secret `s3cr3t`, sandbox on and nonce `abcde`, the URL is the sandbox host path with `Hmac("abcde:1.0:AUD", "s3cr3t")` as its hash segment |
| Urls.FraudFingerprintSource | Model/Config/PmntsConfigProvider.php:70-79 | the fingerprint URL ends in `.js` and starts with the sandbox or production fingerprint path as `sandbox_mode` is truthy or not |
| Urls.SandboxChangesOnlyFingerprintHost | Model/Config/PmntsConfigProvider.php:72-78 | changing `sandbox_mode` leaves everything after the host of the fingerprint URL unchanged |
| UrlParser.IframeSrcRoundTrip | Model/Config/PmntsConfigProvider.php:81-105 | reading the iframe URL gives back the sandbox flag, username, nonce, the nonce payload's HMAC and the CSS URL with its HMAC, and the request is authentic under the shared secret |
| UrlParser.TailRoundTrip | Model/Config/PmntsConfigProvider.php:95 | the path and fixed query after the host give back username, nonce and signature |
| UrlParser.CssRoundTrip | Model/Config/PmntsConfigProvider.php:98-102 | the CSS parameters give back the CSS URL and its signature when `strlen` is positive, and nothing otherwise |
| UrlParser.PaynowHostOf | Model/Config/PmntsConfigProvider.php:90-93 | the two payment hosts are told apart: the reader recovers `sandbox_mode`'s truthiness from the host |
| UrlParser.FingerprintRoundTrip | Model/Config/PmntsConfigProvider.php:70-79 | reading the fingerprint URL gives back the sandbox flag and the username, for every username |
| Customer.CanSaveCard | Model/Config/PmntsConfigProvider.php:114-118 | false for a guest; for a signed-in customer, the truthiness of `customer_save_credit_card` |
| Customer.CustomerHasSavedCC | Model/Config/PmntsConfigProvider.php:120-139 | the early-return scan is true exactly when the customer id is set, the customer entity is present and some token has the gateway's method code, so it is false for an empty token list |
| ConfigProvider.IframeSrcFromShuffle | Model/Config/PmntsConfigProvider.php:81-105 | the iframe URL drawn from any shuffle of the pool is the URL for some well-formed nonce |
| ConfigProvider.GetConfig | Model/Config/PmntsConfigProvider.php:42-58 | the seven fields: iframe URL for a well-formed nonce, `isIframeEnabled` the truthiness of `iframe_tokenization`, the fingerprint URL, `isSandbox` the raw `sandbox_mode`, the two card flags, and the vault method code |

## Left out

- Constructor and framework plumbing (lines 29-37): the payment helper, `getMethodInstance` and its `LocalizedException`. The model takes the settings record, the session and the token lookup as plain inputs instead. `getConfigValue` (lines 60-63) is the field access on that record.
- HMAC-MD5 internals: the digest is the parameter `hmac`, and every property is stated in terms of it. The model does not show that the secret itself never appears in a URL. A username or CSS URL that contains the secret would put it there, and the code does not prevent that.
- Randomness: the shuffle is an input. The model says nothing about how unpredictable the nonce is, or how it is distributed.
- The values of `METHOD_CODE` and `VAULT_METHOD_CODE`: they are declared in Helper/Data.php, which is not part of this model. Here they are constants with unspecified values.
- PHP loose typing beyond strings and `null`: settings are assumed to arrive as strings or `null`, as the configuration storage returns them. A token's method code is assumed to be a string.
- URL escaping and validation: the code does none. The model splices values in verbatim, and the round-trip lemmas state when that is still readable.
- ConfigProvider.GetConfig: states that the iframe URL is the URL for some well-formed nonce, not which nonce, because the nonce is random in the code; `IframeSrcFromShuffle` computes it from the given shuffle.
