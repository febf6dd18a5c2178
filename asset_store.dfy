/**
 * The asset store (src/asset_store/asset_store.cpp): texture and font maps keyed
 * by asset id, and the "make white" pixel pass used for the hit-flash textures.
 * Texture and font handles come from SDL and SDL_ttf and are opaque here; a
 * failed SDL call yields the null handle, which the store keeps like any other.
 */
module Assets {
  /** An SDL_Texture* or TTF_Font* value: Null is nullptr, Ptr(address) an object SDL created. */
  datatype Handle = Null | Ptr(address: nat)
  type Texture = Handle
  type Font = Handle

  const ALPHA_MASK: bv32 := 0xFF00_0000

  /** The per-pixel rule: a pixel with a zero top byte is kept, any other becomes white with its own top byte. */
  function Whiten(pixel: bv32, white: bv32): (r: bv32)
    ensures pixel & ALPHA_MASK == 0 ==> r == pixel
    ensures pixel & ALPHA_MASK != 0 ==> r == white | (pixel & ALPHA_MASK)
  {
    var alpha := pixel & ALPHA_MASK;
    if alpha != 0 then white | alpha else pixel
  }

  /** Whitening never turns a transparent pixel opaque or an opaque one transparent. */
  lemma WhitenKeepsTransparency(pixel: bv32, white: bv32)
    ensures Whiten(pixel, white) & ALPHA_MASK == 0 <==> pixel & ALPHA_MASK == 0
  {
  }

  /** An opaque pixel takes white's colour bits and keeps every bit of its own top byte. */
  lemma WhitenColour(pixel: bv32, white: bv32)
    requires pixel & ALPHA_MASK != 0
    ensures Whiten(pixel, white) & 0x00FF_FFFF == white & 0x00FF_FFFF
    ensures Whiten(pixel, white) & pixel & ALPHA_MASK == pixel & ALPHA_MASK
  {
  }

  /** Whitening a whitened pixel changes nothing. */
  lemma WhitenIdempotent(pixel: bv32, white: bv32)
    ensures Whiten(Whiten(pixel, white), white) == Whiten(pixel, white)
  {
  }

  /** The pixel buffer after whitening its first n entries (none when n <= 0). */
  function WhitenFirst(pixels: seq<bv32>, n: int, white: bv32): (r: seq<bv32>)
    requires n <= |pixels|
    ensures |r| == |pixels|
    ensures forall i :: 0 <= i < |pixels| && i < n ==> r[i] == Whiten(pixels[i], white)
    ensures forall i :: 0 <= i < |pixels| && i >= n ==> r[i] == pixels[i]
  {
    seq(|pixels|, i requires 0 <= i < |pixels| => if i < n then Whiten(pixels[i], white) else pixels[i])
  }

  /** An SDL_Surface in a 32-bit pixel format: width, height and its pixel buffer. */
  class Surface {
    const w: int
    const h: int
    const pixels: array<bv32>

    constructor (w: int, h: int, pixels: array<bv32>)
      ensures this.w == w && this.h == h && this.pixels == pixels
    {
      this.w, this.h, this.pixels := w, h, pixels;
    }
  }

  /**
   * ConvertToWhite. `converted` is what SDL_ConvertSurface returned for the
   * original (a fresh copy, or null on failure) and `white` what SDL_MapRGBA
   * returned for opaque white. On failure the result is null and no pixel is
   * touched; otherwise the first w*h pixels of the copy are whitened, in index
   * order, and the copy is returned.
   */
  method ConvertToWhite(original: Surface, converted: Surface?, white: bv32) returns (r: Surface?)
    requires converted != null ==> converted.w * converted.h <= converted.pixels.Length
    requires converted != null ==> converted.pixels != original.pixels
    modifies if converted != null then {converted.pixels} else {}
    ensures r == converted
    ensures converted != null ==>
              converted.pixels[..] == WhitenFirst(old(converted.pixels[..]), converted.w * converted.h, white)
  {
    if converted == null {
      return null;
    }
    var pixels := converted.pixels;
    var n := converted.w * converted.h;
    var i := 0;
    while i < n
      invariant 0 <= n ==> 0 <= i <= n
      invariant n < 0 ==> i == 0
      invariant pixels[..] == WhitenFirst(old(pixels[..]), i, white)
    {
      var alpha := pixels[i] & ALPHA_MASK;
      if alpha != 0 {
        pixels[i] := white | alpha;
      }
      i := i + 1;
    }
    assert n < 0 ==> WhitenFirst(old(pixels[..]), i, white) == WhitenFirst(old(pixels[..]), n, white);
    return converted;
  }

  /** std::map::emplace: inserts only when the key is absent; an existing entry is kept. */
  function Emplace<K, V>(m: map<K, V>, k: K, v: V): (r: map<K, V>)
    ensures r.Keys == m.Keys + {k}
    ensures r[k] == if k in m then m[k] else v
    ensures forall j :: j in m && j != k ==> r[j] == m[j]
  {
    if k in m then m else m[k := v]
  }

  /** Emplacing a key twice keeps the first value. */
  lemma EmplaceFirstWins<K, V>(m: map<K, V>, k: K, v1: V, v2: V)
    ensures Emplace(Emplace(m, k, v1), k, v2) == Emplace(m, k, v1)
  {
  }

  /** The lookup the getters perform: the stored handle, or nullptr when the id is absent. */
  function Lookup<K>(m: map<K, Handle>, k: K): (r: Handle)
    ensures k in m ==> r == m[k]
    ensures k !in m ==> r == Null
  {
    if k in m then m[k] else Null
  }

  /** The id under which the hit-flash version of a texture is stored. */
  function WhiteId(assetId: string): (r: string)
    ensures |r| == |assetId| + 6 && r[..|assetId|] == assetId
  {
    assetId + "_white"
  }

  lemma WhiteIdDiffers(assetId: string)
    ensures WhiteId(assetId) != assetId
  {
    assert |WhiteId(assetId)| != |assetId|;
  }

  class AssetStore {
    var textures: map<string, Texture>
    var fonts: map<string, Font>

    constructor ()
      ensures textures == map[] && fonts == map[]
    {
      textures, fonts := map[], map[];
    }

    /** clear_assets: both maps end empty (the handles are first destroyed by SDL). */
    method ClearAssets()
      modifies this
      ensures textures == map[] && fonts == map[]
    {
      textures := map[];
      fonts := map[];
    }

    /**
     * add_texture. `texture` and `whiteTexture` are the handles
     * SDL_CreateTextureFromSurface returned for the loaded surface and for its
     * whitened copy: Null when IMG_Load or ConvertToWhite failed. With getWhite
     * the white handle is emplaced under assetId + "_white" first; the base
     * handle is then emplaced under assetId. An id already present keeps its
     * entry; a null handle is stored like any other.
     */
    method AddTexture(assetId: string, getWhite: bool, texture: Texture, whiteTexture: Texture)
      modifies this`textures
      ensures textures == if getWhite then Emplace(Emplace(old(textures), WhiteId(assetId), whiteTexture), assetId, texture)
                          else Emplace(old(textures), assetId, texture)
      ensures textures.Keys == old(textures.Keys) + {assetId} + (if getWhite then {WhiteId(assetId)} else {})
      ensures assetId in old(textures) ==> textures[assetId] == old(textures[assetId])
      ensures assetId !in old(textures) ==> textures[assetId] == texture
      ensures getWhite && WhiteId(assetId) !in old(textures) ==> textures[WhiteId(assetId)] == whiteTexture
    {
      if getWhite {
        textures := Emplace(textures, WhiteId(assetId), whiteTexture);
      }
      WhiteIdDiffers(assetId);
      textures := Emplace(textures, assetId, texture);
    }

    /** add_font: emplace the handle TTF_OpenFont returned. */
    method AddFont(assetId: string, font: Font)
      modifies this`fonts
      ensures fonts == Emplace(old(fonts), assetId, font)
    {
      fonts := Emplace(fonts, assetId, font);
    }

    /** get_texture: the stored handle when the id is present, nullptr otherwise. */
    method GetTexture(assetId: string) returns (r: Texture)
      ensures assetId in textures ==> r == textures[assetId]
      ensures assetId !in textures ==> r == Null
    {
      if assetId !in textures {
        return Null;
      }
      return textures[assetId];
    }

    /** get_font: the stored handle when the id is present, nullptr otherwise. */
    method GetFont(assetId: string) returns (r: Font)
      ensures assetId in fonts ==> r == fonts[assetId]
      ensures assetId !in fonts ==> r == Null
    {
      if assetId !in fonts {
        return Null;
      }
      return fonts[assetId];
    }
  }
}
