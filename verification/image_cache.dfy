/**
 * `NativeImageCache`: marker icons come either from an `http:`/`https:`
 * URL, downloaded once per size and kept in a cache, or from base64 SVG
 * data rendered on each request. The network, the image decoder, the SVG
 * renderer and URL parsing are parameters (`Env`); a download that
 * succeeds is taken to be a function of its URL and size.
 */
module ImageCache {
  import opened Optional
  import opened Text

  /** An image, known only by identity. */
  datatype Image = Image(handle: int)

  datatype Env = Env(
    isValidUrl: string -> bool,                          // `URL(string:) != nil`
    fetch: (string, int, int) -> Option<Image>,          // download, then resize to the size
    decodeBase64: string -> Option<seq<bv8>>,            // `Data(base64Encoded:)`
    renderSvg: (seq<bv8>, int, int) -> Option<Image>)    // `SVGKImage(data:)` at the size

  /** The `NSCache`, with eviction left out: an entry stays until `Clear`. */
  type Cache = map<string, Image>

  datatype Loaded = Loaded(cache: Cache, image: Option<Image>)

  /** No digit and no minus sign: a character the decimal text of an `Int` never holds. */
  lemma NotInDecimal(i: int, c: char)
    requires !IsDigit(c) && c != '-'
    ensures c !in IntToDecimal(i)
  {
    var s := IntToDecimal(i);
    if i >= 0 {
      assert AllDigits(s);
    } else {
      assert s == "-" + NatToDecimal(-i);
      assert AllDigits(NatToDecimal(-i));
      assert forall k :: 1 <= k < |s| ==> s[k] == NatToDecimal(-i)[k - 1];
    }
  }

  /** The download key as written: URL, width and height run together. */
  function CacheKeyAsWritten(url: string, width: int, height: int): string {
    url + IntToDecimal(width) + IntToDecimal(height)
  }

  /**
   * As written, two sizes of one image share a key: `"30" + "130"` and
   * `"301" + "30"` are the same text.
   */
  lemma AsWrittenKeysCollide()
    ensures CacheKeyAsWritten("https://a/i.png", 30, 130) == CacheKeyAsWritten("https://a/i.png", 301, 30)
  {
    assert IntToDecimal(30) == "30";
    assert IntToDecimal(130) == "130";
    assert IntToDecimal(301) == "301";
  }

  /** The download key with the two sizes delimited: `url@WxH`. */
  function CacheKey(url: string, width: int, height: int): string {
    url + "@" + IntToDecimal(width) + "x" + IntToDecimal(height)
  }

  /** Distinct requests get distinct keys. */
  lemma CacheKeyInjective(u1: string, w1: int, h1: int, u2: string, w2: int, h2: int)
    requires CacheKey(u1, w1, h1) == CacheKey(u2, w2, h2)
    ensures u1 == u2 && w1 == w2 && h1 == h2
  {
    NotInDecimal(h1, 'x');
    NotInDecimal(h2, 'x');
    NotInDecimal(w1, '@');
    NotInDecimal(w2, '@');
    assert CacheKey(u1, w1, h1) == (u1 + "@" + IntToDecimal(w1)) + ['x'] + IntToDecimal(h1);
    assert CacheKey(u2, w2, h2) == (u2 + "@" + IntToDecimal(w2)) + ['x'] + IntToDecimal(h2);
    SplitAtLast(u1 + "@" + IntToDecimal(w1), IntToDecimal(h1), u2 + "@" + IntToDecimal(w2), IntToDecimal(h2), 'x');
    assert u1 + "@" + IntToDecimal(w1) == u1 + ['@'] + IntToDecimal(w1);
    assert u2 + "@" + IntToDecimal(w2) == u2 + ['@'] + IntToDecimal(w2);
    SplitAtLast(u1, IntToDecimal(w1), u2, IntToDecimal(w2), '@');
    IntToDecimalInjective(w1, w2);
    IntToDecimalInjective(h1, h2);
  }

  /**
   * `downloadImage(fromURL:resizeWidth:resizeHeight:completion:)` under a
   * given key: a cached image is returned without downloading; otherwise
   * the download's result is returned, and stored only when there is one.
   */
  function DownloadWithKey(env: Env, cache: Cache, url: string, width: int, height: int, key: string): (r: Loaded)
    ensures key in cache ==> r == Loaded(cache, Some(cache[key]))
    ensures key !in cache ==> r.image == env.fetch(url, width, height)
    ensures key !in cache && r.image.None? ==> r.cache == cache
    ensures key !in cache && r.image.Some? ==> r.cache == cache[key := r.image.value]
    ensures r.image.Some? ==> key in r.cache && r.cache[key] == r.image.value
  {
    if key in cache then Loaded(cache, Some(cache[key]))
    else
      match env.fetch(url, width, height)
      case None => Loaded(cache, None)
      case Some(img) => Loaded(cache[key := img], Some(img))
  }

  function DownloadAsWritten(env: Env, cache: Cache, url: string, width: int, height: int): Loaded {
    DownloadWithKey(env, cache, url, width, height, CacheKeyAsWritten(url, width, height))
  }

  function Download(env: Env, cache: Cache, url: string, width: int, height: int): Loaded {
    DownloadWithKey(env, cache, url, width, height, CacheKey(url, width, height))
  }

  /** Every cached download is what downloading it again would give. */
  ghost predicate Transparent(env: Env, cache: Cache) {
    forall u, w, h :: CacheKey(u, w, h) in cache ==> env.fetch(u, w, h) == Some(cache[CacheKey(u, w, h)])
  }

  /**
   * With the delimited key the cache cannot change what a download
   * returns: a load gives exactly what fetching gives, and the cache stays
   * transparent.
   */
  lemma DownloadTransparent(env: Env, cache: Cache, url: string, width: int, height: int)
    requires Transparent(env, cache)
    ensures Download(env, cache, url, width, height).image == env.fetch(url, width, height)
    ensures Transparent(env, Download(env, cache, url, width, height).cache)
  {
    var key := CacheKey(url, width, height);
    var r := Download(env, cache, url, width, height);
    forall u, w, h | CacheKey(u, w, h) in r.cache
      ensures env.fetch(u, w, h) == Some(r.cache[CacheKey(u, w, h)])
    {
      if CacheKey(u, w, h) == key && key !in cache {
        CacheKeyInjective(u, w, h, url, width, height);
      }
    }
  }

  /** A download that succeeds once is served from the cache the next time. */
  lemma SecondDownloadHits(env: Env, cache: Cache, url: string, width: int, height: int)
    requires Download(env, cache, url, width, height).image.Some?
    ensures var first := Download(env, cache, url, width, height);
      Download(env, first.cache, url, width, height) == Loaded(first.cache, first.image)
  {
  }

  /** A network that returns a different image for every size. */
  function SizeSensitiveEnv(): Env {
    Env(u => true, (u, w, h) => Some(Image(1000 * w + h)), s => None, (d, w, h) => None)
  }

  /**
   * As written, asking for one image at 301x30 after 30x130 returns the
   * 30x130 image from the cache.
   */
  lemma AsWrittenServesWrongSize()
    ensures var env := SizeSensitiveEnv();
      var first := DownloadAsWritten(env, map[], "https://a/i.png", 30, 130);
      && first.image == Some(Image(30130))
      && DownloadAsWritten(env, first.cache, "https://a/i.png", 301, 30).image == Some(Image(30130))
      && env.fetch("https://a/i.png", 301, 30) == Some(Image(301030))
  {
    AsWrittenKeysCollide();
  }

  /**
   * `processSVGImage`: a cached image under the SVG key is returned;
   * otherwise the rendering is returned and never stored.
   */
  function ProcessSvg(env: Env, cache: Cache, data: seq<bv8>, width: int, height: int): (r: Loaded)
    ensures r.cache == cache
    ensures SvgKeyOf(|data|, width, height) !in cache ==> r.image == env.renderSvg(data, width, height)
  {
    var key := SvgKeyOf(|data|, width, height);
    if key in cache then Loaded(cache, Some(cache[key])) else Loaded(cache, env.renderSvg(data, width, height))
  }

  /** Swift interpolation of the three numbers (sizes may be negative). */
  function SvgKeyOf(byteCount: nat, width: int, height: int): (k: string)
    ensures |k| > 0 && IsDigit(k[0])
  {
    NatToDecimal(byteCount) + IntToDecimal(width) + IntToDecimal(height)
  }

  /** Every key the cache holds came from a download, so it starts with the URL's scheme. */
  ghost predicate DownloadKeysOnly(cache: Cache) {
    forall k :: k in cache ==> |k| > 0 && k[0] == 'h'
  }

  /** The texts `image(at:)` treats as URLs to download. */
  predicate IsWebUrl(url: string) {
    StartsWith(url, "http:") || StartsWith(url, "https:")
  }

  /**
   * `image(at:resizeWidth:resizeHeight:completion:)`: an `http:`/`https:`
   * text is downloaded, under the key as written, when it parses as a URL;
   * anything else is decoded as base64 SVG data; either failure gives no
   * image.
   */
  function ImageAt(env: Env, cache: Cache, url: string, width: int, height: int): (r: Loaded)
    ensures IsWebUrl(url) ==>
      r == (if env.isValidUrl(url) then DownloadAsWritten(env, cache, url, width, height) else Loaded(cache, None))
    ensures !IsWebUrl(url) ==> r.cache == cache
    ensures !IsWebUrl(url) && env.decodeBase64(url).None? ==> r.image.None?
  {
    if IsWebUrl(url) then
      if env.isValidUrl(url) then DownloadAsWritten(env, cache, url, width, height) else Loaded(cache, None)
    else
      match env.decodeBase64(url)
      case None => Loaded(cache, None)
      case Some(data) => ProcessSvg(env, cache, data, width, height)
  }

  /** `ImageAt` with the delimited download key; SVG data is handled as before. */
  function ImageAtCorrected(env: Env, cache: Cache, url: string, width: int, height: int): (r: Loaded)
    ensures IsWebUrl(url) ==>
      r == (if env.isValidUrl(url) then Download(env, cache, url, width, height) else Loaded(cache, None))
    ensures !IsWebUrl(url) ==> r == ImageAt(env, cache, url, width, height)
  {
    if IsWebUrl(url) && env.isValidUrl(url) then Download(env, cache, url, width, height)
    else ImageAt(env, cache, url, width, height)
  }

  /**
   * As written, `image(at:)` serves the 30x130 image for a later request
   * of the same URL at 301x30; with the delimited key it fetches the
   * 301x30 image.
   */
  lemma ImageAtServesWrongSize()
    ensures var env := SizeSensitiveEnv();
      var url := "https://a/i.png";
      && ImageAt(env, ImageAt(env, map[], url, 30, 130).cache, url, 301, 30).image == Some(Image(30130))
      && ImageAtCorrected(env, ImageAtCorrected(env, map[], url, 30, 130).cache, url, 301, 30).image == Some(Image(301030))
  {
    var env := SizeSensitiveEnv();
    var url := "https://a/i.png";
    assert IsWebUrl(url) by { assert url[..6] == "https:"; }
    AsWrittenServesWrongSize();
    assert Transparent(env, map[]);
    DownloadTransparent(env, map[], url, 30, 130);
    DownloadTransparent(env, Download(env, map[], url, 30, 130).cache, url, 301, 30);
  }

  /**
   * With the delimited key, loading an image from a transparent cache gives
   * what fetching it gives, and the cache stays transparent.
   */
  lemma ImageAtCorrectedTransparent(env: Env, cache: Cache, url: string, width: int, height: int)
    requires Transparent(env, cache)
    ensures IsWebUrl(url) && env.isValidUrl(url) ==>
      ImageAtCorrected(env, cache, url, width, height).image == env.fetch(url, width, height)
    ensures Transparent(env, ImageAtCorrected(env, cache, url, width, height).cache)
  {
    DownloadTransparent(env, cache, url, width, height);
  }

  /**
   * Only downloads store, so the SVG lookup never hits: every SVG image is
   * rendered afresh, and the cache keeps holding download keys only.
   */
  lemma SvgNeverCached(env: Env, cache: Cache, url: string, width: int, height: int)
    requires DownloadKeysOnly(cache)
    ensures DownloadKeysOnly(ImageAt(env, cache, url, width, height).cache)
    ensures !IsWebUrl(url) && env.decodeBase64(url).Some? ==>
      ImageAt(env, cache, url, width, height).image == env.renderSvg(env.decodeBase64(url).value, width, height)
  {
    if IsWebUrl(url) {
      assert url[0] == 'h';
    } else if env.decodeBase64(url).Some? {
      var data := env.decodeBase64(url).value;
      var key := SvgKeyOf(|data|, width, height);
      assert key[0] != 'h';
    }
  }

  /** `clear(completion:)`: everything cached goes. */
  function Clear(cache: Cache): (r: Cache)
    ensures forall k :: k !in r
  {
    map[]
  }

  /** After clearing, the next download of anything fetches afresh. */
  lemma ClearForcesFetch(env: Env, cache: Cache, url: string, width: int, height: int)
    ensures Download(env, Clear(cache), url, width, height).image == env.fetch(url, width, height)
    ensures Transparent(env, Clear(cache))
  {
  }
}
