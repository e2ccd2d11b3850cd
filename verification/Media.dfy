/** The unique keys of media requests and exactly when they are unique. */
module Media {
  const SEPARATOR := "_"

  datatype Size = Size(resize: string, width: nat, height: nat)

  datatype Settings = Settings(size: Size, animated: bool)

  datatype Format = File | Thumbnail(settings: Settings)

  datatype Source = Plain(uri: string) | Encrypted(url: string, key: string)

  datatype Request = Request(source: Source, format: Format)

  // ---- The keys ----

  predicate IsDigit(c: char) {
    '0' <= c <= '9'
  }

  function Digit(n: nat): (c: char)
    requires n < 10
    ensures IsDigit(c)
  {
    '0' + n as char
  }

  /** A number in decimal, without leading zeros. */
  function Decimal(n: nat): (s: string)
    ensures s != [] && forall c <- s :: IsDigit(c)
  {
    if n < 10 then [Digit(n)] else Decimal(n / 10) + [Digit(n % 10)]
  }

  function DigitValue(c: char): nat
    requires IsDigit(c)
  {
    c as nat - '0' as nat
  }

  /** The number a text of digits stands for. */
  function Value(s: string): nat
    requires forall c <- s :: IsDigit(c)
  {
    if s == [] then 0 else 10 * Value(s[..|s| - 1]) + DigitValue(s[|s| - 1])
  }

  lemma {:induction false} DecimalValue(n: nat)
    ensures Value(Decimal(n)) == n
  {
    if n < 10 {
      assert Decimal(n)[..0] == [];
    } else {
      DecimalValue(n / 10);
      assert Decimal(n)[..|Decimal(n)| - 1] == Decimal(n / 10);
    }
  }

  function SizeKey(s: Size): string {
    s.resize + SEPARATOR + Decimal(s.width) + "x" + Decimal(s.height)
  }

  function SettingsKey(s: Settings): string {
    SizeKey(s.size) + if s.animated then SEPARATOR + "animated" else ""
  }

  function FormatKey(f: Format): string {
    match f
    case File => "file"
    case Thumbnail(s) => SettingsKey(s)
  }

  function SourceKey(s: Source): string {
    match s
    case Plain(uri) => uri
    case Encrypted(url, _) => url
  }

  /** The URI a request is about, whether the media is encrypted or not. */
  function Uri(q: Request): string {
    if q.source.Plain? then q.source.uri else q.source.url
  }

  function RequestKey(q: Request): string {
    SourceKey(q.source) + SEPARATOR + FormatKey(q.format)
  }

  // ---- Splitting ----

  /** The separator of the split further right lies in the other split's right part. */
  lemma EarlierSplitHasLater(a: string, b: string, a': string, b': string, c: char)
    requires a + [c] + b == a' + [c] + b' && |b| < |b'|
    ensures c in b'
  {
    assert (a + [c] + b)[|a|] == (a' + [c] + b')[|a|] == b'[|a| - |a'| - 1];
  }

  /** A separator that does not occur to its right splits a text in one way only. */
  lemma SplitAtLast(a: string, b: string, a': string, b': string, c: char)
    requires a + [c] + b == a' + [c] + b' && c !in b && c !in b'
    ensures a == a' && b == b'
  {
    if |b| < |b'| {
      EarlierSplitHasLater(a, b, a', b', c);
    } else if |b'| < |b| {
      EarlierSplitHasLater(a', b', a, b, c);
    }
    var s := a + [c] + b;
    assert a == s[..|a|] && a' == s[..|a|];
    assert b == s[|a| + 1..] && b' == s[|a| + 1..];
  }

  lemma {:induction false} DecimalInjective(n: nat, m: nat)
    requires Decimal(n) == Decimal(m)
    ensures n == m
  {
    if n >= 10 && m >= 10 {
      assert Decimal(n)[..|Decimal(n)| - 1] == Decimal(n / 10);
      assert Decimal(m)[..|Decimal(m)| - 1] == Decimal(m / 10);
      DecimalInjective(n / 10, m / 10);
      assert Decimal(n)[|Decimal(n)| - 1] == Decimal(m)[|Decimal(m)| - 1];
    }
  }

  /** The source and method part of a thumbnail's key. */
  function Head(uri: string, resize: string): string {
    uri + SEPARATOR + resize
  }

  function PlainThumbnail(uri: string, s: Size): string {
    uri + SEPARATOR + SizeKey(s)
  }

  lemma PlainThumbnailSplits(uri: string, s: Size, uri': string, s': Size)
    requires PlainThumbnail(uri, s) == PlainThumbnail(uri', s')
    ensures Head(uri, s.resize) == Head(uri', s'.resize) && s.width == s'.width && s.height == s'.height
  {
    var a, a' := Head(uri, s.resize) + SEPARATOR + Decimal(s.width), Head(uri', s'.resize) + SEPARATOR + Decimal(s'.width);
    assert PlainThumbnail(uri, s) == a + ['x'] + Decimal(s.height);
    assert PlainThumbnail(uri', s') == a' + ['x'] + Decimal(s'.height);
    SplitAtLast(a, Decimal(s.height), a', Decimal(s'.height), 'x');
    DecimalInjective(s.height, s'.height);
    assert a == Head(uri, s.resize) + ['_'] + Decimal(s.width);
    assert a' == Head(uri', s'.resize) + ['_'] + Decimal(s'.width);
    SplitAtLast(Head(uri, s.resize), Decimal(s.width), Head(uri', s'.resize), Decimal(s'.width), '_');
    DecimalInjective(s.width, s'.width);
  }

  lemma PlainThumbnailJoins(uri: string, s: Size, uri': string, s': Size)
    requires Head(uri, s.resize) == Head(uri', s'.resize) && s.width == s'.width && s.height == s'.height
    ensures PlainThumbnail(uri, s) == PlainThumbnail(uri', s')
  {
    var rest := SEPARATOR + Decimal(s.width) + "x" + Decimal(s.height);
    assert PlainThumbnail(uri, s) == Head(uri, s.resize) + rest;
    assert PlainThumbnail(uri', s') == Head(uri', s'.resize) + rest;
  }

  /** The last character of a key tells files, animated and plain thumbnails apart. */
  lemma KeyEnd(q: Request)
    ensures var key := RequestKey(q);
            key != [] &&
            match q.format
            case File => key == Uri(q) + "_file" && key[|key| - 1] == 'e'
            case Thumbnail(s) =>
              if s.animated then key == PlainThumbnail(Uri(q), s.size) + "_animated" && key[|key| - 1] == 'd'
              else key == PlainThumbnail(Uri(q), s.size) && IsDigit(key[|key| - 1])
  {
  }

  // ---- When keys are equal ----

  /** Everything of a request but the split between its URI and its method. */
  predicate Collide(q: Request, q': Request) {
    match (q.format, q'.format)
    case (File, File) => Uri(q) == Uri(q')
    case (Thumbnail(s), Thumbnail(s')) =>
      && s.animated == s'.animated && s.size.width == s'.size.width && s.size.height == s'.size.height
      && Head(Uri(q), s.size.resize) == Head(Uri(q'), s'.size.resize)
    case _ => false
  }

  /** Two keys are equal exactly when the requests agree up to where the URI ends
      and the method begins; no condition on URIs or methods. */
  lemma KeysEqualIffCollide(q: Request, q': Request)
    ensures RequestKey(q) == RequestKey(q') <==> Collide(q, q')
  {
    KeyEnd(q);
    KeyEnd(q');
    var uri, uri' := Uri(q), Uri(q');
    match (q.format, q'.format)
    case (File, File) =>
      if RequestKey(q) == RequestKey(q') {
        assert uri == (uri + "_file")[..|RequestKey(q)| - 5];
        assert uri' == (uri' + "_file")[..|RequestKey(q)| - 5];
      }
    case (Thumbnail(s), Thumbnail(s')) =>
      var p, p' := PlainThumbnail(uri, s.size), PlainThumbnail(uri', s'.size);
      if RequestKey(q) == RequestKey(q') {
        if s.animated {
          assert p == (p + "_animated")[..|RequestKey(q)| - 9];
          assert p' == (p' + "_animated")[..|RequestKey(q)| - 9];
        }
        PlainThumbnailSplits(uri, s.size, uri', s'.size);
      }
      if Collide(q, q') {
        PlainThumbnailJoins(uri, s.size, uri', s'.size);
      }
    case _ =>
  }

  predicate Same(q: Request, q': Request) {
    Uri(q) == Uri(q') && q.format == q'.format
  }

  predicate UsesMethod(q: Request, methods: iset<string>) {
    q.format.Thumbnail? ==> q.format.settings.size.resize in methods
  }

  /** Keys identify the URI and format of every request using the given methods. */
  ghost predicate KeysIdentify(methods: iset<string>) {
    forall q, q' :: UsesMethod(q, methods) && UsesMethod(q', methods) ==> (RequestKey(q) == RequestKey(q') <==> Same(q, q'))
  }

  /** `longer` is some text, the separator, and `shorter`. */
  ghost predicate Extends(longer: string, shorter: string) {
    |longer| > |shorter| && longer[|longer| - |shorter| - 1..] == SEPARATOR + shorter
  }

  ghost predicate SuffixFree(methods: iset<string>) {
    forall m, m' :: m in methods && m' in methods ==> !Extends(m, m')
  }

  lemma HeadsDetermine(uri: string, m: string, uri': string, m': string)
    requires Head(uri, m) == Head(uri', m') && |m| >= |m'|
    ensures (uri == uri' && m == m') || Extends(m, m')
  {
    var h := Head(uri, m);
    assert m == h[|uri| + 1..] && m' == h[|uri'| + 1..];
    if |m| == |m'| {
      assert uri == h[..|uri|] && uri' == h[..|uri|];
    } else {
      assert h[|uri'|] == '_';
      assert m[|m| - |m'| - 1..] == h[|uri'|..];
      assert h[|uri'|..] == SEPARATOR + m';
    }
  }

  lemma ExtensionCollides(m: string, m': string)
    requires Extends(m, m')
    ensures exists uri :: uri != "" && Head("", m) == Head(uri, m')
  {
    var x := m[..|m| - |m'| - 1];
    assert m == x + (SEPARATOR + m');
    var uri := SEPARATOR + x;
    assert Head("", m) == Head(uri, m');
  }

  /** Over a set of methods, request keys are unique if and only if no method is
      another one preceded by a separator; URIs may contain the separator. */
  lemma KeysIdentifyIffSuffixFree(methods: iset<string>)
    ensures KeysIdentify(methods) <==> SuffixFree(methods)
  {
    if SuffixFree(methods) {
      forall q, q' | UsesMethod(q, methods) && UsesMethod(q', methods)
        ensures RequestKey(q) == RequestKey(q') <==> Same(q, q')
      {
        KeysEqualIffCollide(q, q');
        if q.format.Thumbnail? && q'.format.Thumbnail? && Collide(q, q') {
          var m, m' := q.format.settings.size.resize, q'.format.settings.size.resize;
          if |m| >= |m'| {
            HeadsDetermine(Uri(q), m, Uri(q'), m');
          } else {
            HeadsDetermine(Uri(q'), m', Uri(q), m);
          }
        }
      }
    } else {
      var m, m' :| m in methods && m' in methods && Extends(m, m');
      ExtensionCollides(m, m');
      var uri :| uri != "" && Head("", m) == Head(uri, m');
      var q := Request(Plain(""), Thumbnail(Settings(Size(m, 0, 0), false)));
      var q' := Request(Plain(uri), Thumbnail(Settings(Size(m', 0, 0), false)));
      KeysEqualIffCollide(q, q');
      assert UsesMethod(q, methods) && UsesMethod(q', methods) && !Same(q, q');
    }
  }

  lemma ExtensionHasSeparator(m: string, m': string)
    requires Extends(m, m')
    ensures '_' in m
  {
    assert m[|m| - |m'| - 1..][0] == '_';
    assert m[|m| - |m'| - 1] == '_';
  }

  /** In particular they are unique for all methods without a separator. */
  lemma SeparatorFreeMethodsIdentify()
    ensures KeysIdentify(iset m: string | '_' !in m)
  {
    var methods := iset m: string | '_' !in m;
    forall m, m' | m in methods && m' in methods
      ensures !Extends(m, m')
    {
      if Extends(m, m') {
        ExtensionHasSeparator(m, m');
      }
    }
    KeysIdentifyIffSuffixFree(methods);
  }

  /** The key of thumbnail settings alone identifies them, whatever the method. */
  lemma SettingsKeyInjective(s: Settings, s': Settings)
    ensures SettingsKey(s) == SettingsKey(s') <==> s == s'
  {
    var q, q' := Request(Plain(""), Thumbnail(s)), Request(Plain(""), Thumbnail(s'));
    KeysEqualIffCollide(q, q');
    assert RequestKey(q) == "" + SEPARATOR + SettingsKey(s) && RequestKey(q') == "" + SEPARATOR + SettingsKey(s');
    assert SettingsKey(s) == RequestKey(q)[1..] && SettingsKey(s') == RequestKey(q')[1..];
    assert s.size.resize == Head("", s.size.resize)[1..] && s'.size.resize == Head("", s'.size.resize)[1..];
  }

  /** The key of thumbnail settings, which no other settings have. */
  method UniqueSettingsKey(s: Settings) returns (key: string)
    ensures forall s' :: SettingsKey(s') == key <==> s' == s
  {
    key := SizeKey(s.size);
    if s.animated {
      key := key + SEPARATOR;
      key := key + "animated";
    }
    assert s.animated ==> SizeKey(s.size) + SEPARATOR + "animated" == SizeKey(s.size) + (SEPARATOR + "animated");
    forall s'
      ensures SettingsKey(s') == key <==> s' == s
    {
      SettingsKeyInjective(s, s');
    }
  }

  lemma ThumbnailText(uri: string, size: Size)
    ensures PlainThumbnail(uri, size) ==
            uri + "_" + size.resize + "_" + Decimal(size.width) + "x" + Decimal(size.height)
  {
    var rest := "_" + Decimal(size.width) + "x" + Decimal(size.height);
    assert SizeKey(size) == size.resize + rest;
    assert PlainThumbnail(uri, size) == uri + "_" + size.resize + rest;
  }

  /** The text of a key: the URI, then `file`, or the method, width and height of the
      thumbnail in decimal and whether it is animated. */
  lemma KeyText(q: Request)
    ensures match q.format
            case File => RequestKey(q) == Uri(q) + "_file"
            case Thumbnail(s) =>
              var plain := Uri(q) + "_" + s.size.resize + "_" + Decimal(s.size.width) + "x" + Decimal(s.size.height);
              RequestKey(q) == if s.animated then plain + "_animated" else plain
  {
    KeyEnd(q);
    match q.format
    case File =>
    case Thumbnail(s) => ThumbnailText(Uri(q), s.size);
  }
}
