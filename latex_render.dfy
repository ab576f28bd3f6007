/** The two render functions of latexUtils.ts (`renderLatexToSvgDataUrl`,
    `renderLatexToSvgMarkup`) and the content-addressed caches they share. */
module LatexRender {
  import opened Wrappers
  import opened LatexUtils
  import opened SvgDimensions
  import opened SvgNamespaces

  /** The foreign steps of rendering: MathJax's conversion of a key to SVG
      markup, the base64 data-URL encoding of that markup, and the browser's
      decode of the data URL. */
  datatype MathJax = MathJax(convert: string -> string, encode: string -> string, probe: string -> ImageProbe)

  /** A cached image: the data URL and its size in pixels. */
  datatype SvgImage = SvgImage(dataUrl: string, width: real, height: real)

  /** What `renderLatexToSvgDataUrl` settles to: `null`, an image, or a
      rejected promise (the image decode failed). */
  datatype ImageOutcome = Null | Image(image: SvgImage) | Rejected

  // ---------------------------------------------------------------------
  // Uncached rendering

  /** The cache key of a value: its normalised text with the delimiters
      stripped; `None` when either step leaves nothing. */
  function RenderKey(value: string): (r: Option<string>)
    ensures r.Some? ==> r.value != []
  {
    var normalized := NormalizeLatexInput(value);
    if normalized == [] then None
    else
      var stripped := StripLatexDelimiters(normalized);
      if stripped == [] then None else Some(stripped)
  }

  /** The opening steps of both render functions: normalise, return `null`
      on an empty result, strip the delimiters, return `null` again. */
  method CacheKey(value: string) returns (key: Option<string>)
    ensures key == RenderKey(value)
  {
    var normalized := NormalizeLatexInput(value);
    if normalized == [] {
      return None;
    }
    var stripped := StripLatexDelimiters(normalized);
    if stripped == [] {
      return None;
    }
    return Some(stripped);
  }

  /** The miss path of `renderLatexToSvgDataUrl`: convert, add the
      namespaces, encode, and read the size; `None` when the decode rejects. */
  method RenderImage(env: MathJax, key: string) returns (r: Option<SvgImage>)
    ensures r == FreshImage(env, key)
  {
    var markup := EnsureSvgNamespaces(env.convert(key));
    var dataUrl := env.encode(markup);
    var size := GetSvgDimensions(markup, env.probe(dataUrl));
    if size.None? {
      return None;
    }
    return Some(SvgImage(dataUrl, size.value.width, size.value.height));
  }

  /** The namespaced markup of a key, rendered afresh. */
  function FreshMarkup(env: MathJax, key: string): string {
    WithNamespaces(env.convert(key))
  }

  /** The image of a key, rendered afresh; `None` when the decode fails. */
  function FreshImage(env: MathJax, key: string): (r: Option<SvgImage>)
    ensures r.Some? ==> r.value.width > 0.0 && r.value.height > 0.0
  {
    var markup := FreshMarkup(env, key);
    var dataUrl := env.encode(markup);
    match GetSvgDimensions(markup, env.probe(dataUrl))
    case None => None
    case Some(size) => Some(SvgImage(dataUrl, size.width, size.height))
  }

  /** What rendering a key gives without any cache. */
  function ImageOfKey(env: MathJax, key: Option<string>): ImageOutcome {
    match key
    case None => Null
    case Some(k) =>
      match FreshImage(env, k)
      case None => Rejected
      case Some(x) => Image(x)
  }

  /** What rendering a value to an image gives without any cache. */
  function UncachedImage(env: MathJax, value: string): ImageOutcome {
    ImageOfKey(env, RenderKey(value))
  }

  /** What rendering a key to markup gives without any cache. */
  function MarkupOfKey(env: MathJax, key: Option<string>): Option<string> {
    match key
    case None => None
    case Some(k) => Some(FreshMarkup(env, k))
  }

  /** What rendering a value to markup gives without any cache. */
  function UncachedMarkup(env: MathJax, value: string): Option<string> {
    MarkupOfKey(env, RenderKey(value))
  }

  // ---------------------------------------------------------------------
  // A content-addressed cache in front of a render function

  /** Every cached entry is what `render` gives for its key. */
  ghost predicate CacheValid<V>(render: string -> Option<V>, cache: map<string, V>) {
    forall k :: k in cache ==> render(k) == Some(cache[k])
  }

  /** The value served for `key`: the entry on a hit, a fresh render on a miss. */
  function Lookup<V>(render: string -> Option<V>, cache: map<string, V>, key: string): Option<V> {
    if key in cache then Some(cache[key]) else render(key)
  }

  /** The cache after serving `key`: a miss that renders is inserted. */
  function Insert<V>(render: string -> Option<V>, cache: map<string, V>, key: string): map<string, V> {
    if key in cache then cache
    else match render(key)
      case None => cache
      case Some(x) => cache[key := x]
  }

  /** A valid cache serves exactly what rendering afresh gives. */
  lemma LookupTransparent<V>(render: string -> Option<V>, cache: map<string, V>, key: string)
    requires CacheValid(render, cache)
    ensures Lookup(render, cache, key) == render(key)
  {
  }

  /** Serving a key keeps the cache valid, never removes or changes an entry,
      adds at most that key, and holds the key afterwards whenever it rendered. */
  lemma InsertStep<V>(render: string -> Option<V>, cache: map<string, V>, key: string)
    requires CacheValid(render, cache)
    ensures var after := Insert(render, cache, key);
      && CacheValid(render, after)
      && (forall k :: k in cache ==> k in after && after[k] == cache[k])
      && (forall k :: k in after && k !in cache ==> k == key)
      && (key in after <==> render(key).Some?)
  {
  }

  /** Serving a key twice: the second time is a hit and changes nothing. */
  lemma InsertIdempotent<V>(render: string -> Option<V>, cache: map<string, V>, key: string)
    ensures var after := Insert(render, cache, key);
      Insert(render, after, key) == after && Lookup(render, after, key) == Lookup(render, cache, key)
  {
  }

  // ---------------------------------------------------------------------
  // The two caches of the module

  /** The image render of a key, as a function value. */
  function ImageRender(env: MathJax): string -> Option<SvgImage> {
    k => FreshImage(env, k)
  }

  /** The markup render of a key, as a function value; it never fails. */
  function MarkupRender(env: MathJax): string -> Option<string> {
    k => Some(FreshMarkup(env, k))
  }

  /** The cache after a call that computed `key`: untouched for an empty key. */
  function InsertKey<V>(render: string -> Option<V>, cache: map<string, V>, key: Option<string>): map<string, V> {
    match key
    case None => cache
    case Some(k) => Insert(render, cache, k)
  }

  /** The image cache after one call of `renderLatexToSvgDataUrl`. */
  function ImageCacheAfter(env: MathJax, cache: map<string, SvgImage>, value: string): map<string, SvgImage> {
    InsertKey(ImageRender(env), cache, RenderKey(value))
  }

  /** The markup cache after one call of `renderLatexToSvgMarkup`. */
  function MarkupCacheAfter(env: MathJax, cache: map<string, string>, value: string): map<string, string> {
    InsertKey(MarkupRender(env), cache, RenderKey(value))
  }

  /** Values that share a key share a render: the caches are keyed by content. */
  lemma SameKeySameRender(env: MathJax, a: string, b: string)
    requires RenderKey(a) == RenderKey(b)
    ensures UncachedImage(env, a) == UncachedImage(env, b)
    ensures UncachedMarkup(env, a) == UncachedMarkup(env, b)
  {
  }

  // ---------------------------------------------------------------------
  // The renderer with its two module-level maps

  class LatexRenderer {
    const env: MathJax
    var imageCache: map<string, SvgImage>
    var markupCache: map<string, string>

    ghost predicate Valid()
      reads this
    {
      CacheValid(ImageRender(env), imageCache) && CacheValid(MarkupRender(env), markupCache)
    }

    constructor (env: MathJax)
      ensures Valid() && this.env == env
      ensures imageCache == map[] && markupCache == map[]
    {
      this.env := env;
      imageCache := map[];
      markupCache := map[];
    }

    /** `renderLatexToSvgDataUrl`: `null` for an empty key, the cached image
        on a hit, otherwise a fresh render that is cached unless it rejects. */
    method RenderLatexToSvgDataUrl(value: string) returns (r: ImageOutcome)
      requires Valid()
      modifies this
      ensures Valid()
      ensures r == UncachedImage(env, value)
      ensures imageCache == ImageCacheAfter(env, old(imageCache), value)
      ensures markupCache == old(markupCache)
    {
      var key := CacheKey(value);
      if key.None? {
        return Null;
      }
      var image := ServeImage(key.value);
      if image.None? {
        return Rejected;
      }
      return Image(image.value);
    }

    /** The cache step of `renderLatexToSvgDataUrl` for a non-empty key. */
    method ServeImage(key: string) returns (r: Option<SvgImage>)
      requires Valid()
      modifies this
      ensures Valid()
      ensures r == FreshImage(env, key)
      ensures imageCache == Insert(ImageRender(env), old(imageCache), key)
      ensures markupCache == old(markupCache)
    {
      InsertStep(ImageRender(env), imageCache, key);
      if key in imageCache {
        return Some(imageCache[key]);
      }
      var rendered := RenderImage(env, key);
      if rendered.None? {
        return None;
      }
      imageCache := imageCache[key := rendered.value];
      return rendered;
    }

    /** `renderLatexToSvgMarkup`: `null` for an empty key, the cached markup
        on a hit, otherwise a fresh render that is cached. */
    method RenderLatexToSvgMarkup(value: string) returns (r: Option<string>)
      requires Valid()
      modifies this
      ensures Valid()
      ensures r == UncachedMarkup(env, value)
      ensures markupCache == MarkupCacheAfter(env, old(markupCache), value)
      ensures imageCache == old(imageCache)
    {
      var key := CacheKey(value);
      if key.None? {
        return None;
      }
      var markup := ServeMarkup(key.value);
      return Some(markup);
    }

    /** The cache step of `renderLatexToSvgMarkup` for a non-empty key. */
    method ServeMarkup(key: string) returns (r: string)
      requires Valid()
      modifies this
      ensures Valid()
      ensures r == FreshMarkup(env, key)
      ensures markupCache == Insert(MarkupRender(env), old(markupCache), key)
      ensures imageCache == old(imageCache)
    {
      InsertStep(MarkupRender(env), markupCache, key);
      if key in markupCache {
        return markupCache[key];
      }
      var svgWithNamespaces := EnsureSvgNamespaces(env.convert(key));
      markupCache := markupCache[key := svgWithNamespaces];
      return svgWithNamespaces;
    }
  }
}
