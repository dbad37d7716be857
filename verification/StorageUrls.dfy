/** Public URLs of stored objects and the way back to their keys. Keys and URLs are the bytes of
    their UTF-8 form, one character each. */
module StorageUrls {
  import opened Wrappers

  type Byte = c: char | (c as int) < 256 witness 'a'

  type Bytes = seq<Byte>

  /** An empty text stands for a setting that is not configured. */
  datatype Settings = Settings(publicBase: Bytes, endpoint: Bytes, bucket: Bytes, region: Bytes)

  // ---------------------------------------------------------------- percent-encoding

  /** The unreserved characters of RFC 3986, section 2.3, and the slash. */
  predicate Kept(c: Byte) {
    'a' <= c <= 'z' || 'A' <= c <= 'Z' || '0' <= c <= '9' || c == '_' || c == '.' || c == '-' || c == '~' || c == '/'
  }

  function HexDigit(n: nat): (c: Byte)
    requires n < 16
    ensures HexValue(c) == Some(n) && Kept(c) && c != '/'
  {
    if n < 10 then ('0' as int + n) as char else ('A' as int + n - 10) as char
  }

  function HexValue(c: Byte): (v: Option<nat>)
    ensures v.Some? ==> v.value < 16
  {
    if '0' <= c <= '9' then Some(c as int - '0' as int)
    else if 'A' <= c <= 'F' then Some(c as int - 'A' as int + 10)
    else if 'a' <= c <= 'f' then Some(c as int - 'a' as int + 10)
    else None
  }

  function QuoteByte(c: Byte): Bytes {
    if Kept(c) then [c] else ['%', HexDigit(c as int / 16), HexDigit(c as int % 16)]
  }

  function Quote(s: Bytes): Bytes {
    if |s| == 0 then [] else QuoteByte(s[0]) + Quote(s[1..])
  }

  predicate Escape(s: Bytes) {
    |s| >= 3 && s[0] == '%' && HexValue(s[1]).Some? && HexValue(s[2]).Some?
  }

  function Unquote(s: Bytes): Bytes
    decreases |s|
  {
    if |s| == 0 then []
    else if Escape(s) then
      [(16 * HexValue(s[1]).value + HexValue(s[2]).value) as char] + Unquote(s[3..])
    else [s[0]] + Unquote(s[1..])
  }

  /** Digits are written in capitals. */
  lemma DigitsAreCapitals(n: nat)
    requires n < 16
    ensures HexDigit(n) == "0123456789ABCDEF"[n]
  {
  }

  /** What is written as it is, and every digit that is read, in either case. */
  lemma KeptExactly(c: Byte)
    ensures Kept(c) <==>
      65 <= c as int <= 90 || 97 <= c as int <= 122 || 48 <= c as int <= 57 || c in {'_', '.', '-', '~', '/'}
    ensures forall n: nat :: n < 16 ==>
      (HexValue(c) == Some(n) <==> c == "0123456789ABCDEF"[n] || c == "0123456789abcdef"[n])
  {
  }

  /** Whatever does not start an escape is read as it is, a percent sign on its own included. */
  lemma {:induction false} NothingToUnquote(s: Bytes)
    requires forall i :: 0 <= i < |s| ==> !Escape(s[i..])
    ensures Unquote(s) == s
  {
    if |s| > 0 {
      assert s[0..] == s;
      forall i | 0 <= i < |s[1..]| ensures !Escape(s[1..][i..]) {
        assert s[1..][i..] == s[i + 1..];
      }
      NothingToUnquote(s[1..]);
    }
  }

  lemma {:induction false} UnquoteQuote(s: Bytes)
    ensures Unquote(Quote(s)) == s
  {
    if |s| > 0 {
      var rest := Quote(s[1..]);
      UnquoteQuote(s[1..]);
      var quoted := Quote(s);
      if Kept(s[0]) {
        assert quoted == [s[0]] + rest && quoted[1..] == rest;
      } else {
        assert quoted[3..] == rest && Escape(quoted);
        assert 16 * (s[0] as int / 16) + s[0] as int % 16 == s[0] as int;
      }
    }
  }

  /** A slash in a quoted text is a slash of the text: nothing else is written with one. */
  lemma {:induction false} SlashIsRaw(s: Bytes, at: nat) returns (j: nat)
    requires at < |Quote(s)| && Quote(s)[at] == '/'
    ensures j < |s| && s[j] == '/' && Quote(s)[at + 1..] == Quote(s[j + 1..])
  {
    var head, rest := QuoteByte(s[0]), Quote(s[1..]);
    if at < |head| {
      assert Quote(s)[at] == head[at];
      assert Kept(s[0]);
      j := 0;
      assert Quote(s)[1..] == rest;
    } else {
      assert Quote(s)[at] == rest[at - |head|];
      var k := SlashIsRaw(s[1..], at - |head|);
      j := k + 1;
      assert s[1..][k + 1..] == s[j + 1..];
      assert Quote(s)[at + 1..] == rest[at - |head| + 1..];
    }
  }

  /** Only what percent-encoding writes. */
  predicate Encoded(s: Bytes) {
    forall i :: 0 <= i < |s| ==> Kept(s[i]) || s[i] == '%'
  }

  lemma {:induction false} QuotedIsEncoded(s: Bytes)
    ensures Encoded(Quote(s))
  {
    if |s| > 0 {
      QuotedIsEncoded(s[1..]);
    }
  }

  // ---------------------------------------------------------------- URLs

  function StripSlashes(s: Bytes): Bytes
    decreases |s|
  {
    if |s| > 0 && s[|s| - 1] == '/' then StripSlashes(s[..|s| - 1]) else s
  }

  function Host(settings: Settings): Bytes {
    settings.bucket + ".s3." + settings.region + ".amazonaws.com"
  }

  function PublicUrl(settings: Settings, key: Bytes): Bytes {
    if settings.publicBase != [] then StripSlashes(settings.publicBase) + "/" + Quote(key)
    else if settings.endpoint != [] then StripSlashes(settings.endpoint) + "/" + settings.bucket + "/" + Quote(key)
    else "https://" + Host(settings) + "/" + Quote(key)
  }

  lemma {:induction false} SlashesGo(base: Bytes, slashes: Bytes)
    requires base == [] || base[|base| - 1] != '/'
    requires forall i :: 0 <= i < |slashes| ==> slashes[i] == '/'
    ensures StripSlashes(base + slashes) == base
  {
    var n := |slashes|;
    if n > 0 {
      assert (base + slashes)[..|base| + n - 1] == base + slashes[..n - 1];
      SlashesGo(base, slashes[..n - 1]);
    } else {
      assert base + slashes == base;
    }
  }

  /** Behind the public base, or else behind the bucket at the endpoint. Slashes at their ends make no difference. */
  lemma PublicUrlForms(settings: Settings, key: Bytes, base: Bytes, slashes: Bytes)
    requires base == [] || base[|base| - 1] != '/'
    requires forall i :: 0 <= i < |slashes| ==> slashes[i] == '/'
    ensures settings.publicBase == base + slashes != [] ==> PublicUrl(settings, key) == base + "/" + Quote(key)
    ensures settings.publicBase == [] && settings.endpoint == base + slashes != [] ==>
      PublicUrl(settings, key) == base + "/" + settings.bucket + "/" + Quote(key)
  {
    SlashesGo(base, slashes);
  }

  /** Without either, at the bucket's own host. */
  lemma HostForm(settings: Settings, key: Bytes)
    requires settings.publicBase == [] && settings.endpoint == []
    ensures PublicUrl(settings, key) ==
      "https://" + (settings.bucket + ".s3." + settings.region + ".amazonaws.com") + "/" + Quote(key)
  {
  }

  predicate StartsWith(s: Bytes, prefix: Bytes) {
    prefix <= s
  }

  /** Where the part first occurs in the text. */
  function Find(s: Bytes, part: Bytes): (at: Option<nat>)
    ensures at.Some? ==> at.value + |part| <= |s| && s[at.value..at.value + |part|] == part
    decreases |s|
  {
    if StartsWith(s, part) then Some(0)
    else if |s| == 0 then None
    else match Find(s[1..], part)
      case None => None
      case Some(i) => Some(i + 1)
  }

  lemma {:induction false} FindIsFirst(s: Bytes, part: Bytes, i: nat)
    requires i + |part| <= |s| && s[i..i + |part|] == part
    ensures Find(s, part).Some? && Find(s, part).value <= i
    decreases |s|
  {
    if !StartsWith(s, part) {
      assert i > 0;
      assert s[1..][i - 1..i - 1 + |part|] == part;
      FindIsFirst(s[1..], part, i - 1);
    }
  }

  /** `path` is the path component that the URL parser of the standard library gives. */
  function KeyFromUrl(settings: Settings, value: Bytes, path: Bytes -> Bytes): Option<Bytes> {
    var base := StripSlashes(settings.publicBase) + "/";
    var prefix := StripSlashes(settings.endpoint) + "/" + settings.bucket + "/";
    if value == [] then None
    else if settings.publicBase != [] && StartsWith(value, base) then Some(Unquote(value[|base|..]))
    else if settings.endpoint != [] && StartsWith(value, prefix) then Some(Unquote(value[|prefix|..]))
    else
      var suffix := "/" + settings.bucket + "/";
      match Find(path(value), suffix)
      case None => None
      case Some(i) => Some(Unquote(path(value)[i + |suffix|..]))
  }

  /** What names of buckets and regions are made of. */
  predicate HostName(s: Bytes) {
    forall i :: 0 <= i < |s| ==>
      'a' <= s[i] <= 'z' || 'A' <= s[i] <= 'Z' || '0' <= s[i] <= '9' || s[i] == '-' || s[i] == '.'
  }

  /** What the URL parser does with an `https` URL of a host name and a percent-encoded path. */
  ghost predicate ParsesPaths(path: Bytes -> Bytes) {
    forall host: Bytes, rest: Bytes {:trigger path("https://" + host + "/" + rest)} ::
      HostName(host) && Encoded(rest) ==> path("https://" + host + "/" + rest) == "/" + rest
  }

  /** Without a public base and an endpoint the key is looked for behind the first bucket in the path. */
  lemma LastForm(settings: Settings, value: Bytes, path: Bytes -> Bytes, full: Bytes, suffix: Bytes)
    requires settings.publicBase == [] && settings.endpoint == []
    requires full == path(value) && suffix == "/" + settings.bucket + "/"
    ensures var r, found := KeyFromUrl(settings, value, path), Find(full, suffix);
      && (r.Some? <==> value != [] && found.Some?)
      && (r.Some? ==> r.value == Unquote(full[found.value + |suffix|..]))
  {
  }

  lemma HostIsAName(settings: Settings)
    requires HostName(settings.bucket) && HostName(settings.region)
    ensures HostName(Host(settings))
  {
    var parts := settings.bucket + ".s3.";
    assert HostName(".s3.") && HostName(".amazonaws.com") && HostName(parts);
    assert HostName(parts + settings.region);
  }

  /** A URL of any other host is read behind the bucket's name, if that comes first in its path. */
  lemma PathStyleIsRead(settings: Settings, value: Bytes, key: Bytes, path: Bytes -> Bytes)
    requires value != [] && path(value) == "/" + settings.bucket + "/" + Quote(key)
    requires settings.publicBase != [] ==> !StartsWith(value, StripSlashes(settings.publicBase) + "/")
    requires settings.endpoint != [] ==>
      !StartsWith(value, StripSlashes(settings.endpoint) + "/" + settings.bucket + "/")
    ensures KeyFromUrl(settings, value, path) == Some(key)
  {
    var suffix := "/" + settings.bucket + "/";
    assert path(value)[0..0 + |suffix|] == suffix && path(value)[|suffix|..] == Quote(key);
    FindIsFirst(path(value), suffix, 0);
    UnquoteQuote(key);
  }

  /** The path of the third form is the encoded key. */
  lemma AwsPath(settings: Settings, key: Bytes, path: Bytes -> Bytes)
    requires settings.publicBase == [] && settings.endpoint == []
    requires ParsesPaths(path) && HostName(settings.bucket) && HostName(settings.region)
    ensures PublicUrl(settings, key) != [] && path(PublicUrl(settings, key)) == "/" + Quote(key)
  {
    HostIsAName(settings);
    QuotedIsEncoded(key);
  }

  /** What follows some slash of the key. */
  ghost predicate FollowsASlash(key: Bytes, r: Bytes) {
    exists j: nat :: BehindSlash(key, j, r)
  }

  predicate BehindSlash(key: Bytes, j: nat, r: Bytes) {
    j < |key| && key[j] == '/' && r == key[j + 1..]
  }

  lemma AfterTheBucket(key: Bytes, full: Bytes, suffix: Bytes, i: nat)
    requires full == "/" + Quote(key) && |suffix| >= 2 && suffix[|suffix| - 1] == '/'
    requires i + |suffix| <= |full| && full[i..i + |suffix|] == suffix
    ensures FollowsASlash(key, Unquote(full[i + |suffix|..]))
  {
    var quoted, last := Quote(key), i + |suffix| - 2;
    assert full[i..i + |suffix|][|suffix| - 1] == full[last + 1] == quoted[last];
    var j := SlashIsRaw(key, last);
    assert full[i + |suffix|..] == quoted[last + 1..];
    UnquoteQuote(key[j + 1..]);
    assert BehindSlash(key, j, Unquote(full[i + |suffix|..]));
  }

  lemma Shorter(key: Bytes, r: Bytes)
    requires FollowsASlash(key, r)
    ensures |r| < |key|
  {
  }

  lemma LostBehind(key: Bytes, full: Bytes, suffix: Bytes, r: Option<Bytes>)
    requires full == "/" + Quote(key) && |suffix| >= 2 && suffix[|suffix| - 1] == '/'
    requires r.Some? ==> Find(full, suffix).Some? && r.value == Unquote(full[Find(full, suffix).value + |suffix|..])
    ensures r.Some? ==> FollowsASlash(key, r.value) && r.value != key
  {
    if r.Some? {
      AfterTheBucket(key, full, suffix, Find(full, suffix).value);
      Shorter(key, r.value);
    }
  }

  lemma LastFormLoses(settings: Settings, url: Bytes, key: Bytes, path: Bytes -> Bytes, suffix: Bytes, r: Option<Bytes>)
    requires settings.publicBase == [] && settings.endpoint == []
    requires path(url) == "/" + Quote(key) && suffix == "/" + settings.bucket + "/"
    requires r == KeyFromUrl(settings, url, path)
    ensures r.Some? ==> FollowsASlash(key, r.value) && r.value != key
  {
    LastForm(settings, url, path, path(url), suffix);
    LostBehind(key, path(url), suffix, r);
  }

  /** In the third form the answer is none, or what follows some slash of the key: never the key. */
  lemma AwsFormLosesTheKey(settings: Settings, key: Bytes, path: Bytes -> Bytes)
    requires settings.publicBase == [] && settings.endpoint == []
    requires ParsesPaths(path) && HostName(settings.bucket) && HostName(settings.region)
    ensures var r := KeyFromUrl(settings, PublicUrl(settings, key), path);
      r.Some? ==> FollowsASlash(key, r.value) && r.value != key
  {
    var url := PublicUrl(settings, key);
    AwsPath(settings, key, path);
    LastFormLoses(settings, url, key, path, "/" + settings.bucket + "/", KeyFromUrl(settings, url, path));
  }

  /** With a public base or an endpoint configured, every key comes back from its public URL. */
  lemma ConfiguredFormsRoundTrip(settings: Settings, key: Bytes, path: Bytes -> Bytes)
    requires settings.publicBase != [] || settings.endpoint != []
    ensures KeyFromUrl(settings, PublicUrl(settings, key), path) == Some(key)
  {
    UnquoteQuote(key);
    var url := PublicUrl(settings, key);
    var base := StripSlashes(settings.publicBase) + "/";
    var prefix := StripSlashes(settings.endpoint) + "/" + settings.bucket + "/";
    if settings.publicBase != [] {
      assert url[..|base|] == base && url[|base|..] == Quote(key);
    } else {
      assert url[..|prefix|] == prefix && url[|prefix|..] == Quote(key);
    }
  }

  /** Those are the only settings under which any key comes back. */
  lemma UrlRoundTripExactly(settings: Settings, key: Bytes, path: Bytes -> Bytes)
    requires ParsesPaths(path)
    requires settings.publicBase == [] && settings.endpoint == [] ==>
      HostName(settings.bucket) && HostName(settings.region)
    ensures KeyFromUrl(settings, PublicUrl(settings, key), path) == Some(key) <==>
            settings.publicBase != [] || settings.endpoint != []
  {
    if settings.publicBase != [] || settings.endpoint != [] {
      ConfiguredFormsRoundTrip(settings, key, path);
    } else {
      AwsFormLosesTheKey(settings, key, path);
    }
  }
}
