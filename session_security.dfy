/**
 * The client-side session clean-up: expire every auth cookie, purge every
 * auth key from local and session storage, and the string hash behind the
 * browser fingerprint.  The browser is modelled by its inputs: the
 * `document.cookie` text, the hostname, the two storages, and the JSON text
 * of the fingerprint.
 */
module SessionSecurity {
  import opened Wrappers
  import opened Text

  // ---------------------------------------------------------------- cookies

  /** The name of one `;`-separated segment of `document.cookie`, if it has one: the text before a `=` that is not the first character. */
  function CookieName(segment: string): (r: Option<string>)
    ensures r.Some? ==> r.value != [] && '=' !in r.value
    ensures r.Some? ==> StartsWith(Trim(segment), r.value + "=")
    ensures r.Some? <==> IndexOf(Trim(segment), '=') > 0
  {
    var trimmed := Trim(segment);
    var equalIndex := IndexOf(trimmed, '=');
    if equalIndex > 0 then
      PrefixThroughSeparator(trimmed, equalIndex);
      Some(trimmed[..equalIndex])
    else None
  }

  lemma PrefixThroughSeparator(s: string, i: nat)
    requires i < |s| && s[i] == '='
    ensures StartsWith(s, s[..i] + "=")
  {
    assert s[..i + 1] == s[..i] + "=";
  }

  /** A cookie name that looks like authentication state. */
  predicate IsAuthCookie(name: string) {
    Contains(name, "next-auth") || Contains(name, "token") || Contains(name, "session") || Contains(name, "__Secure")
  }

  const Expired := "=; expires=Thu, 01 Jan 1970 00:00:00 GMT; path=/;"

  /** `hostname === 'localhost' ? '' : hostname`. */
  function CookieDomain(hostname: string): (r: string)
    ensures r == "" <==> hostname == "localhost" || hostname == ""
  {
    if hostname == "localhost" then "" else hostname
  }

  const ExpiredSecure := "=; expires=Thu, 01 Jan 1970 00:00:00 GMT; path=/; secure;"

  /** The `document.cookie` assignments that expire the cookie `name`, in order. */
  function ExpirationLines(name: string, domain: string): (r: seq<string>)
    ensures |r| == if domain != "" then 4 else 2
    ensures r[0] == name + Expired && r[|r| - 1] == "__Secure-" + name + ExpiredSecure
  {
    [name + Expired]
    + (if domain != "" then
         [name + "=; expires=Thu, 01 Jan 1970 00:00:00 GMT; path=/; domain=" + domain + ";",
          name + "=; expires=Thu, 01 Jan 1970 00:00:00 GMT; path=/; domain=." + domain + ";"]
       else [])
    + ["__Secure-" + name + ExpiredSecure]
  }

  /** The name of a segment when it looks like authentication state. */
  function AuthCookieName(segment: string): (r: seq<string>)
    ensures |r| <= 1
  {
    var name := CookieName(segment);
    if name.Some? && IsAuthCookie(name.value) then [name.value] else []
  }

  /** The auth cookie names of the segments, in order. */
  function AuthCookieNames(segments: seq<string>): (r: seq<string>)
    ensures forall name :: name in r ==> IsAuthCookie(name) && name != []
    ensures |r| <= |segments|
  {
    if segments == [] then []
    else AuthCookieNames(segments[..|segments| - 1]) + AuthCookieName(segments[|segments| - 1])
  }

  /** Every segment whose name looks like authentication state contributes that name. */
  lemma {:induction false} AuthCookieNamesComplete(segments: seq<string>, i: nat)
    requires i < |segments|
    requires CookieName(segments[i]).Some? && IsAuthCookie(CookieName(segments[i]).value)
    ensures CookieName(segments[i]).value in AuthCookieNames(segments)
  {
    if i < |segments| - 1 {
      AuthCookieNamesComplete(segments[..|segments| - 1], i);
    }
  }

  /** All expiration lines for the names, in order. */
  function AllExpirations(names: seq<string>, domain: string): (r: seq<string>)
    ensures |r| == |names| * (if domain != "" then 4 else 2)
  {
    if names == [] then [] else AllExpirations(names[..|names| - 1], domain) + ExpirationLines(names[|names| - 1], domain)
  }

  lemma AllExpirationsSnoc(names: seq<string>, name: string, domain: string)
    ensures AllExpirations(names + [name], domain) == AllExpirations(names, domain) + ExpirationLines(name, domain)
  {
    assert (names + [name])[..|names|] == names;
  }

  lemma AuthCookieNamesSnoc(segments: seq<string>, i: nat)
    requires i < |segments|
    ensures AuthCookieNames(segments[..i + 1]) == AuthCookieNames(segments[..i]) + AuthCookieName(segments[i])
  {
    assert segments[..i + 1][..i] == segments[..i];
  }

  /**
   * The cookie half of `clearAuthStorage`: every segment with a name that
   * looks like authentication state gets its expiration lines, four of them
   * with a domain unless the host is "localhost", two otherwise.
   */
  method ExpireAuthCookies(cookie: string, hostname: string) returns (writes: seq<string>)
    ensures writes == AllExpirations(AuthCookieNames(Split(cookie, ';')), CookieDomain(hostname))
  {
    var domain := CookieDomain(hostname);
    var segments := Split(cookie, ';');
    writes := [];
    ghost var names: seq<string> := [];
    for i := 0 to |segments|
      invariant names == AuthCookieNames(segments[..i])
      invariant writes == AllExpirations(names, domain)
    {
      AuthCookieNamesSnoc(segments, i);
      var c := segments[i];
      var name := CookieName(c);
      if name.Some? && IsAuthCookie(name.value) {
        AllExpirationsSnoc(names, name.value, domain);
        writes := writes + ExpirationLines(name.value, domain);
        names := names + [name.value];
      } else {
        assert names + AuthCookieName(c) == names;
      }
    }
    assert segments[..|segments|] == segments;
  }

  /** Domain-scoped lines appear exactly when the host is neither "localhost" nor empty. */
  lemma DomainLinesOnlyOffLocalhost(name: string, hostname: string)
    ensures var lines := ExpirationLines(name, CookieDomain(hostname));
      |lines| == 4 <==> hostname != "localhost" && hostname != ""
  {
  }

  // ---------------------------------------------------------------- storage

  /**
   * A storage key that looks like authentication state.  The empty key, which
   * the storage loops skip as falsy, contains none of the five words.
   */
  predicate IsAuthKey(key: string) {
    Contains(key, "next-auth") || Contains(key, "token") || Contains(key, "session")
    || Contains(key, "user") || Contains(key, "google")
  }

  /** No key appears twice. */
  predicate NoRepeats(s: seq<string>) {
    forall i, j :: 0 <= i < j < |s| ==> s[i] != s[j]
  }

  /** `s` without the elements in `gone`, in order. */
  function Drop(s: seq<string>, gone: set<string>): (r: seq<string>)
    ensures |r| <= |s|
  {
    if s == [] then []
    else Drop(s[..|s| - 1], gone) + (if s[|s| - 1] in gone then [] else [s[|s| - 1]])
  }

  /** What is left after dropping: the elements not in `gone`. */
  lemma {:induction false} DropMembers(s: seq<string>, gone: set<string>)
    ensures forall x :: x in Drop(s, gone) <==> x in s && x !in gone
  {
    if s != [] {
      var init, x := s[..|s| - 1], s[|s| - 1];
      assert s == init + [x];
      DropMembers(init, gone);
    }
  }

  lemma DropSnoc(s: seq<string>, x: string, gone: set<string>)
    ensures Drop(s + [x], gone) == Drop(s, gone) + (if x in gone then [] else [x])
  {
    assert (s + [x])[..|s|] == s;
  }

  /** Dropping in two rounds is dropping the union once. */
  lemma {:induction false} DropTwice(s: seq<string>, a: set<string>, b: set<string>)
    ensures Drop(Drop(s, a), b) == Drop(s, a + b)
  {
    if s != [] {
      var init, x := s[..|s| - 1], s[|s| - 1];
      assert s == init + [x];
      DropTwice(init, a, b);
      DropSnoc(init, x, a);
      DropSnoc(init, x, a + b);
      var d := Drop(init, a);
      if x in a {
        assert Drop(s, a) == d;
        calc {
          Drop(Drop(s, a), b);
          Drop(d, b);
          Drop(init, a + b);
          Drop(s, a + b);
        }
      } else {
        var tail := if x in b then [] else [x];
        DropSnoc(d, x, b);
        calc {
          Drop(Drop(s, a), b);
          Drop(d + [x], b);
          Drop(d, b) + tail;
          Drop(init, a + b) + tail;
          Drop(s, a + b);
        }
      }
    }
  }

  lemma {:induction false} DropNothing(s: seq<string>)
    ensures Drop(s, {}) == s
  {
    if s != [] {
      DropNothing(s[..|s| - 1]);
    }
  }

  /** Dropping keeps the keys distinct. */
  lemma {:induction false} DropKeepsDistinct(s: seq<string>, gone: set<string>)
    requires NoRepeats(s)
    ensures NoRepeats(Drop(s, gone))
  {
    if s != [] {
      var init, x := s[..|s| - 1], s[|s| - 1];
      assert NoRepeats(init) by {
        forall i, j | 0 <= i < j < |init| ensures init[i] != init[j] {
          assert init[i] == s[i] && init[j] == s[j];
        }
      }
      DropKeepsDistinct(init, gone);
      DropMembers(init, gone);
      var d := Drop(init, gone);
      if x !in gone {
        assert x !in init by {
          forall k | 0 <= k < |init| ensures init[k] != x {
            assert init[k] == s[k];
          }
        }
        var r := d + [x];
        forall i, j | 0 <= i < j < |r| ensures r[i] != r[j] {
          if j == |d| {
            assert r[i] == d[i];
            assert r[i] in d;
          } else {
            assert r[i] == d[i] && r[j] == d[j];
          }
        }
      }
    }
  }

  /** The auth keys of `keys`, in order. */
  function AuthKeys(keys: seq<string>): (r: seq<string>)
    ensures forall k :: k in r <==> k in keys && IsAuthKey(k)
  {
    if keys == [] then []
    else AuthKeys(keys[..|keys| - 1]) + (if IsAuthKey(keys[|keys| - 1]) then [keys[|keys| - 1]] else [])
  }

  lemma AuthKeysSnoc(keys: seq<string>, i: nat)
    requires i < |keys|
    ensures AuthKeys(keys[..i + 1]) == AuthKeys(keys[..i]) + (if IsAuthKey(keys[i]) then [keys[i]] else [])
  {
    assert keys[..i + 1][..i] == keys[..i];
  }

  function Elems(s: seq<string>): (r: set<string>)
    ensures forall x :: x in r <==> x in s
  {
    set x | x in s
  }

  /**
   * `localStorage` or `sessionStorage`: the keys in the storage's own order,
   * and the value of each.
   */
  class WebStorage {
    var keys: seq<string>
    var values: map<string, string>

    ghost predicate Valid()
      reads this
    {
      && NoRepeats(keys)
      && (forall k :: k in values <==> k in keys)
    }

    constructor(keys: seq<string>, values: map<string, string>)
      requires NoRepeats(keys)
      requires forall k :: k in values <==> k in keys
      ensures Valid() && this.keys == keys && this.values == values
    {
      this.keys := keys;
      this.values := values;
    }

    /** `storage.length`. */
    function Length(): nat
      reads this
    {
      |keys|
    }

    /** `storage.key(i)`: null past the end. */
    function Key(i: nat): (r: Option<string>)
      reads this
      ensures r.Some? <==> i < |keys|
      ensures r.Some? ==> r.value == keys[i]
    {
      if i < |keys| then Some(keys[i]) else None
    }

    /** `storage.removeItem(key)`: the key and its value go, everything else stays. */
    method RemoveItem(key: string)
      requires Valid()
      modifies this
      ensures Valid()
      ensures keys == Drop(old(keys), {key})
      ensures values == old(values) - {key}
    {
      DropKeepsDistinct(keys, {key});
      DropMembers(keys, {key});
      keys := Drop(keys, {key});
      values := values - {key};
    }
  }

  /** The first half of a storage loop of `clearAuthStorage`: the auth keys, in the storage's order. */
  method CollectAuthKeys(storage: WebStorage) returns (keysToRemove: seq<string>)
    ensures keysToRemove == AuthKeys(storage.keys)
  {
    keysToRemove := [];
    for i := 0 to storage.Length()
      invariant keysToRemove == AuthKeys(storage.keys[..i])
    {
      AuthKeysSnoc(storage.keys, i);
      var key := storage.Key(i);
      if key.Some? && IsAuthKey(key.value) {
        keysToRemove := keysToRemove + [key.value];
      }
    }
    assert storage.keys[..|storage.keys|] == storage.keys;
  }

  /** `keysToRemove.forEach(key => storage.removeItem(key))`. */
  method RemoveEach(storage: WebStorage, keysToRemove: seq<string>)
    requires storage.Valid()
    modifies storage
    ensures storage.Valid()
    ensures storage.keys == Drop(old(storage.keys), Elems(keysToRemove))
    ensures storage.values == old(storage.values) - Elems(keysToRemove)
  {
    ghost var keys0, values0 := storage.keys, storage.values;
    ghost var removed: set<string> := {};
    DropNothing(keys0);
    for j := 0 to |keysToRemove|
      invariant removed == Elems(keysToRemove[..j])
      invariant storage.Valid()
      invariant storage.keys == Drop(keys0, removed)
      invariant storage.values == values0 - removed
    {
      var key := keysToRemove[j];
      ElemsSnoc(keysToRemove, j);
      DropTwice(keys0, removed, {key});
      MapMinusTwice(values0, removed, key);
      storage.RemoveItem(key);
      removed := removed + {key};
    }
    assert keysToRemove[..|keysToRemove|] == keysToRemove;
  }

  /** Removing a set of keys and then one more is removing their union. */
  lemma MapMinusTwice(m: map<string, string>, a: set<string>, k: string)
    ensures m - a - {k} == m - (a + {k})
  {
  }

  lemma ElemsSnoc(s: seq<string>, j: nat)
    requires j < |s|
    ensures Elems(s[..j + 1]) == Elems(s[..j]) + {s[j]}
  {
    assert s[..j + 1] == s[..j] + [s[j]];
  }

  /**
   * One storage loop of `clearAuthStorage`: collect the auth keys, then
   * remove each.  Afterwards no auth key is left, and every other key keeps
   * its place and its value.
   */
  method PurgeAuthKeys(storage: WebStorage)
    requires storage.Valid()
    modifies storage
    ensures storage.Valid()
    ensures storage.keys == Drop(old(storage.keys), Elems(AuthKeys(old(storage.keys))))
    ensures forall k :: k in storage.keys <==> k in old(storage.keys) && !IsAuthKey(k)
    ensures forall k :: k in storage.values <==> k in old(storage.values) && !IsAuthKey(k)
    ensures forall k :: k in storage.values ==> storage.values[k] == old(storage.values)[k]
  {
    ghost var keys0, values0 := storage.keys, storage.values;
    var keysToRemove := CollectAuthKeys(storage);
    RemoveEach(storage, keysToRemove);
    PurgedValues(keys0, values0);
    DropMembers(keys0, Elems(keysToRemove));
  }

  /** Removing the auth keys from a storage's values leaves exactly its other keys. */
  lemma PurgedValues(keys: seq<string>, values: map<string, string>)
    requires forall k :: k in values <==> k in keys
    ensures forall k :: k in values - Elems(AuthKeys(keys)) <==> k in values && !IsAuthKey(k)
  {
  }

  /**
   * `clearAuthStorage`, with a window: the cookie writes, then the purge of
   * local storage, then of session storage.  Without a window nothing happens.
   */
  method ClearAuthStorage(hasWindow: bool, cookie: string, hostname: string, local: WebStorage, session: WebStorage)
    returns (cookieWrites: seq<string>)
    requires local != session
    requires local.Valid() && session.Valid()
    modifies local, session
    ensures local.Valid() && session.Valid()
    ensures !hasWindow ==> cookieWrites == [] && unchanged(local) && unchanged(session)
    ensures hasWindow ==> cookieWrites == AllExpirations(AuthCookieNames(Split(cookie, ';')), CookieDomain(hostname))
    ensures hasWindow ==>
      && (forall k :: k in local.values <==> k in old(local.values) && !IsAuthKey(k))
      && (forall k :: k in local.values ==> local.values[k] == old(local.values)[k])
      && (forall k :: k in session.values <==> k in old(session.values) && !IsAuthKey(k))
      && (forall k :: k in session.values ==> session.values[k] == old(session.values)[k])
  {
    if !hasWindow {
      return [];
    }
    cookieWrites := ExpireAuthCookies(cookie, hostname);
    PurgeAuthKeys(local);
    PurgeAuthKeys(session);
  }

  // ------------------------------------------------------------ fingerprint

  /** A UTF-16 code unit, what `charCodeAt` returns. */
  type CodeUnit = c: int | 0 <= c < 0x1_0000

  const TwoTo32: int := 0x1_0000_0000
  const TwoTo31: int := 0x8000_0000

  /** ECMAScript's ToInt32: wrap to a signed 32-bit integer. */
  function ToInt32(x: int): (r: int)
    ensures -TwoTo31 <= r < TwoTo31
    ensures (x - r) % TwoTo32 == 0
  {
    var m := x % TwoTo32;
    if m >= TwoTo31 then m - TwoTo32 else m
  }

  /** Numbers that agree modulo 2^32 have the same ToInt32. */
  lemma ToInt32Congruent(x: int, y: int)
    requires (x - y) % TwoTo32 == 0
    ensures ToInt32(x) == ToInt32(y)
  {
    var k := (x - y) / TwoTo32;
    assert x == y + k * TwoTo32;
    assert x % TwoTo32 == y % TwoTo32;
  }

  /** One step of the loop as written: `hash = ((hash << 5) - hash) + char; hash = hash & hash`. */
  function HashStep(hash: int, c: CodeUnit): int {
    var shifted := ToInt32(ToInt32(hash) * 32);
    var sum := shifted - hash + c;
    ToInt32(sum)
  }

  /** The same step stated as the textbook hash: `31 * hash + char`, wrapped to 32 bits. */
  lemma HashStepIsTimes31(hash: int, c: CodeUnit)
    requires -TwoTo31 <= hash < TwoTo31
    ensures HashStep(hash, c) == ToInt32(31 * hash + c)
  {
    var s := ToInt32(hash * 32);
    assert ToInt32(hash) == hash;
    assert (hash * 32 - s) % TwoTo32 == 0;
    var k := (hash * 32 - s) / TwoTo32;
    assert s - hash + c == 31 * hash + c - k * TwoTo32;
    assert ((s - hash + c) - (31 * hash + c)) % TwoTo32 == 0;
    ToInt32Congruent(s - hash + c, 31 * hash + c);
  }

  /** The hash of a string: the left fold of `31 * h + c` from 0, wrapped to 32 bits at each step. */
  function StringHash(s: seq<CodeUnit>): (r: int)
    ensures -TwoTo31 <= r < TwoTo31
  {
    if s == [] then 0 else ToInt32(31 * StringHash(s[..|s| - 1]) + s[|s| - 1])
  }

  /** The hash loop of `getBrowserFingerprint`. */
  method HashString(s: seq<CodeUnit>) returns (hash: int)
    ensures hash == StringHash(s)
  {
    hash := 0;
    for i := 0 to |s|
      invariant hash == StringHash(s[..i])
    {
      var unit := s[i];
      assert s[..i + 1][..i] == s[..i];
      HashStepIsTimes31(hash, unit);
      hash := ToInt32(ToInt32(hash) * 32) - hash + unit;
      hash := ToInt32(hash);
    }
    assert s[..|s|] == s;
  }

  /** One base-36 digit, `0`-`9` then `a`-`z`. */
  function Digit36(d: nat): (c: char)
    requires d < 36
  {
    if d < 10 then ('0' as int + d) as char else ('a' as int + d - 10) as char
  }

  function DigitValue36(c: char): int {
    if '0' <= c <= '9' then c as int - '0' as int
    else if 'a' <= c <= 'z' then c as int - 'a' as int + 10
    else -1
  }

  /** `n.toString(36)` for a natural number. */
  function Base36(n: nat): (s: string)
    ensures |s| >= 1
    ensures forall c :: c in s ==> 0 <= DigitValue36(c) < 36
  {
    if n < 36 then [Digit36(n)] else Base36(n / 36) + [Digit36(n % 36)]
  }

  /** `h.toString(36)` for an integer: a minus sign, then the digits of its magnitude. */
  function ToString36(h: int): (s: string)
    ensures |s| >= 1
  {
    if h < 0 then "-" + Base36(-h) else Base36(h)
  }

  /** `parseInt(s, 36)` for a string of base-36 digits. */
  function ParseBase36(s: string): int {
    if s == [] then 0 else ParseBase36(s[..|s| - 1]) * 36 + DigitValue36(s[|s| - 1])
  }

  /** The base-36 text reads back as the number it was made from. */
  lemma {:induction false} Base36RoundTrip(n: nat)
    ensures ParseBase36(Base36(n)) == n
  {
    if n >= 36 {
      Base36RoundTrip(n / 36);
      var s := Base36(n);
      assert s[..|s| - 1] == Base36(n / 36);
    } else {
      assert Base36(n)[..0] == [];
    }
  }

  /** With `-` read as a sign, `ToString36` reads back as the hash it was made from. */
  lemma ToString36RoundTrip(h: int)
    ensures var s := ToString36(h);
      (if s[0] == '-' then -ParseBase36(s[1..]) else ParseBase36(s)) == h
  {
    if h < 0 {
      Base36RoundTrip(-h);
      assert ToString36(h)[1..] == Base36(-h);
    } else {
      Base36RoundTrip(h);
      assert 0 <= DigitValue36(Base36(h)[0]);
    }
  }

  /** The fingerprint's environment: no window, a failure while reading the browser, or the JSON text to hash. */
  datatype Environment = NoWindow | Failure | Window(fingerprintText: seq<CodeUnit>)

  /** `getBrowserFingerprint`: "" without a window or on failure, else the base-36 text of the hash. */
  method GetBrowserFingerprint(env: Environment) returns (r: string)
    ensures env.NoWindow? || env.Failure? ==> r == ""
    ensures env.Window? ==> r == ToString36(StringHash(env.fingerprintText)) && r != ""
  {
    match env
    case NoWindow =>
      return "";
    case Failure =>
      return "";
    case Window(fingerprintStr) =>
      var hash := HashString(fingerprintStr);
      r := ToString36(hash);
  }
}
