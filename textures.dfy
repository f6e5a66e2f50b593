/**
 * The background texture registry of the image renderer. Each known texture
 * whose file exists gets the next free id, in the order of the known list;
 * the renderer then looks names, ids, filters, colours and texture bodies up.
 * Whether a texture file exists and what it holds are parameters.
 */
module BackgroundTextures {
  import opened Common
  import opened Text

  const KnownTextures: seq<string> := ["default", "brick", "grass", "grass2", "earth", "stone", "sand", "rubble"]

  /** `BackgroundTextureInfo`: `id` is set only in the entries `getAllTextures` returns. */
  datatype TextureInfo = TextureInfo(name: string, displayName: string, color: string, id: Option<int>)

  predicate Distinct(names: seq<string>)
  {
    forall i, j :: 0 <= i < j < |names| ==> names[i] != names[j]
  }

  /** Ids `0 .. |names| - 1` for `names`, in order. */
  function IdMap(names: seq<string>): map<int, string>
    decreases |names|
  {
    if names == [] then map[] else IdMap(names[..|names| - 1])[|names| - 1 := names[|names| - 1]]
  }

  /** Each name to the id `IdMap` gives it (the last one, should a name repeat). */
  function NameMap(names: seq<string>): map<string, int>
    decreases |names|
  {
    if names == [] then map[] else NameMap(names[..|names| - 1])[names[|names| - 1] := |names| - 1]
  }

  /** Registration of one known texture: appended when its file exists and it is not registered yet. */
  function RegisterStep(registered: seq<string>, name: string, present: string -> bool): seq<string>
  {
    if present(name) && name !in registered then registered + [name] else registered
  }

  /** The registered names after the known textures `known` are tried in order. */
  function Registered(registered: seq<string>, known: seq<string>, present: string -> bool): seq<string>
    decreases |known|
  {
    if known == [] then registered
    else RegisterStep(Registered(registered, known[..|known| - 1], present), known[|known| - 1], present)
  }

  /** The textures of `known` whose file exists, in order. */
  function Present(known: seq<string>, present: string -> bool): seq<string>
    decreases |known|
  {
    if known == [] then []
    else Present(known[..|known| - 1], present) + (if present(known[|known| - 1]) then [known[|known| - 1]] else [])
  }

  /** `capitalize`: the first character in upper case. */
  function Capitalize(s: string): (r: string)
    ensures |r| == |s| && (|s| > 0 ==> r[0] == UpperChar(s[0]) && r[1..] == s[1..])
  {
    if s == [] then s else [UpperChar(s[0])] + s[1..]
  }

  /** The colour of a known texture, by lower-case name; grey for any other name. */
  function DefaultColor(textureName: string): (r: string)
    ensures |r| == 7 && r[0] == '#'
  {
    var n := Lower(textureName);
    if n == "default" then "#228B22"
    else if n == "grass" then "#90EE90"
    else if n == "grass2" then "#2e7d32"
    else if n == "earth" then "#8B4513"
    else if n == "stone" then "#696969"
    else if n == "sand" then "#F4A460"
    else if n == "brick" then "#a84600"
    else "#808080"
  }

  predicate IsQuote(c: char) { c == '\'' || c == '"' }

  /** `fill='#xxxxxx'` (either quote on either side, six hex digits) starts at index `i`. */
  predicate FillColorAt(svg: string, i: int)
  {
    0 <= i && i + 14 <= |svg| && svg[i..i + 5] == "fill=" && IsQuote(svg[i + 5]) && svg[i + 6] == '#'
    && (forall k :: i + 7 <= k < i + 13 ==> IsHexDigit(svg[k])) && IsQuote(svg[i + 13])
  }

  /** The first index from `i` on where a fill colour starts. */
  function FirstFillFrom(svg: string, i: nat): (r: Option<nat>)
    ensures r.Some? ==> i <= r.value && FillColorAt(svg, r.value) && forall j :: i <= j < r.value ==> !FillColorAt(svg, j)
    ensures r.None? ==> forall j :: i <= j ==> !FillColorAt(svg, j)
    decreases |svg| - i
  {
    if i + 14 > |svg| then None
    else if FillColorAt(svg, i) then Some(i)
    else FirstFillFrom(svg, i + 1)
  }

  /**
   * The colour of the first `fill='#xxxxxx'` in a texture body, the `#` and
   * its six hex digits; grey when there is none.
   */
  function ExtractColorFromSvg(svg: string): (r: string)
    ensures |r| == 7 && r[0] == '#' && forall k :: 1 <= k < 7 ==> IsHexDigit(r[k])
    ensures (forall i :: !FillColorAt(svg, i)) ==> r == "#808080"
    ensures r == "#808080" || exists i :: FillColorAt(svg, i) && r == svg[i + 6..i + 13] && forall j :: 0 <= j < i ==> !FillColorAt(svg, j)
  {
    match FirstFillFrom(svg, 0)
    case None => "#808080"
    case Some(i) => svg[i + 6..i + 13]
  }

  /** The fourteen characters of the pattern suffice: a fill colour that ends the text is found. */
  lemma FillAtEndFound()
    ensures ExtractColorFromSvg("fill='#123456'") == "#123456"
  {
    var s := "fill='#123456'";
    assert s[0..5] == "fill=";
    assert IsHexDigit(s[7]) && IsHexDigit(s[8]) && IsHexDigit(s[9]) && IsHexDigit(s[10]) && IsHexDigit(s[11]) && IsHexDigit(s[12]);
    assert FillColorAt(s, 0);
    assert FirstFillFrom(s, 0) == Some(0);
    assert s[6..13] == "#123456";
  }

  /** The info registration records for a texture: its colour from the file, or the default colour when the file fails to load. */
  function LoadedInfo(name: string, svgOf: string -> Option<string>): TextureInfo
  {
    match svgOf(name)
    case Some(svg) => TextureInfo(name, Capitalize(name), ExtractColorFromSvg(svg), None)
    case None => TextureInfo(name, Capitalize(name), DefaultColor(name), None)
  }

  function InfoMap(names: seq<string>, svgOf: string -> Option<string>): map<string, TextureInfo>
  {
    map n | n in names :: LoadedInfo(n, svgOf)
  }

  class BackgroundTextureService {
    var textureIdToName: map<int, string>
    var textureNameToId: map<string, int>
    var textureInfo: map<string, TextureInfo>
    /** The registered names in the order of their ids. */
    ghost var registered: seq<string>

    ghost predicate Valid()
      reads this
    {
      Distinct(registered) && textureIdToName == IdMap(registered) && textureNameToId == NameMap(registered)
    }

    constructor ()
      ensures Valid() && registered == [] && textureInfo == map[]
    {
      textureIdToName := map[];
      textureNameToId := map[];
      textureInfo := map[];
      registered := [];
    }

    /**
     * The next free id: 0 for an empty registry, otherwise one more than the
     * largest id. Ids are dense under `Valid`, so that is the entry count.
     */
    method NextId() returns (id: int)
      requires Valid()
      ensures textureIdToName == map[] ==> id == 0
      ensures forall k :: k in textureIdToName ==> k < id
      ensures textureIdToName != map[] ==> id - 1 in textureIdToName
    {
      IdMapKeys(registered);
      id := |textureIdToName|;
    }

    /**
     * One known texture: when its file exists and it is not registered yet it
     * gets the next id and the info loaded from its file.
     */
    method RegisterTexture(name: string, present: string -> bool, svgOf: string -> Option<string>)
      requires Valid()
      modifies this
      ensures Valid()
      ensures registered == RegisterStep(old(registered), name, present)
      ensures registered == old(registered) ==> textureInfo == old(textureInfo)
      ensures registered != old(registered) ==> textureInfo == old(textureInfo)[name := LoadedInfo(name, svgOf)]
    {
      if present(name) {
        NameMapKeys(registered);
        if name !in textureNameToId {
          AddTexture(name, svgOf);
        }
      }
    }

    /** A texture not registered yet gets the next id and the info loaded from its file. */
    method AddTexture(name: string, svgOf: string -> Option<string>)
      requires Valid() && name !in registered
      modifies this
      ensures Valid()
      ensures registered == old(registered) + [name]
      ensures textureInfo == old(textureInfo)[name := LoadedInfo(name, svgOf)]
    {
      var nextId := NextId();
      NextIdIsCount(registered, nextId);
      RegisterMaps(registered, name);
      textureIdToName := textureIdToName[nextId := name];
      textureNameToId := textureNameToId[name := nextId];
      registered := registered + [name];
      textureInfo := textureInfo[name := LoadedInfo(name, svgOf)];
    }

    /** Tries every known texture in order. */
    method RegisterKnownTextures(present: string -> bool, svgOf: string -> Option<string>)
      requires Valid()
      modifies this
      ensures Valid()
      ensures registered == Registered(old(registered), KnownTextures, present)
      ensures |old(registered)| <= |registered| && registered[..|old(registered)|] == old(registered)
      ensures textureInfo == old(textureInfo) + InfoMap(registered[|old(registered)|..], svgOf)
    {
      ghost var start := registered;
      ghost var startInfo := textureInfo;
      WholePrefix(registered);
      InfoMapEmpty(startInfo, registered, svgOf);
      for k := 0 to |KnownTextures|
        invariant Valid()
        invariant registered == Registered(start, KnownTextures[..k], present)
        invariant |start| <= |registered| && registered[..|start|] == start
        invariant textureInfo == startInfo + InfoMap(registered[|start|..], svgOf)
      {
        ghost var before := registered;
        RegisterTexture(KnownTextures[k], present, svgOf);
        assert KnownTextures[..k + 1][..k] == KnownTextures[..k];
        if registered != before {
          assert (before + [KnownTextures[k]])[..|start|] == before[..|start|];
          InfoMapSnoc(startInfo, before, |start|, KnownTextures[k], svgOf);
        }
      }
      assert KnownTextures[..|KnownTextures|] == KnownTextures;
    }

    /** The lookups the renderer makes read the three maps as they stand. */
    function Lookup(): Registry
      reads this
    {
      Registry(textureIdToName, textureNameToId, textureInfo)
    }

    /** Registration leaves the ids dense from 0 and the two maps inverse to each other. */
    lemma LookupValid()
      requires Valid()
      ensures Lookup().Valid()
      ensures |Lookup().GetAllTextures()| == |registered|
      ensures forall i :: 0 <= i < |registered| ==> Lookup().GetAllTextures()[i] == Lookup().EntryOf(i, registered[i])
    {
      IdMapKeys(registered);
      InverseMaps(registered);
    }
  }

  /**
   * The registry as the renderer reads it: the id-to-name and name-to-id maps
   * and the info recorded per name.
   */
  datatype Registry = Registry(textureIdToName: map<int, string>, textureNameToId: map<string, int>, textureInfo: map<string, TextureInfo>)
  {
    /** Ids are `0 .. n - 1` and the two maps are inverse to each other. */
    ghost predicate Valid()
    {
      && (forall id :: id in textureIdToName <==> 0 <= id < |textureIdToName|)
      && (forall id :: id in textureIdToName ==> textureIdToName[id] in textureNameToId && textureNameToId[textureIdToName[id]] == id)
      && (forall n :: n in textureNameToId ==> textureNameToId[n] in textureIdToName && textureIdToName[textureNameToId[n]] == n)
    }

    function GetTextureName(textureId: int): (r: string)
      ensures textureId !in textureIdToName ==> r == "earth"
    {
      if textureId in textureIdToName then textureIdToName[textureId] else "earth"
    }

    function GetTextureId(textureName: string): Option<int>
    {
      if textureName in textureNameToId then Some(textureNameToId[textureName]) else None
    }

    predicate IsValidTextureId(textureId: int)
    {
      textureId in textureIdToName
    }

    /** One entry per registered id, ascending by id; missing info is made from the name. */
    function GetAllTextures(): (r: seq<TextureInfo>)
      requires Valid()
      ensures |r| == |textureIdToName|
      ensures forall i :: 0 <= i < |r| ==> i in textureIdToName && r[i].id == Some(i) && r[i].name == textureIdToName[i]
      ensures forall id :: id in textureIdToName ==> 0 <= id < |r|
    {
      seq(|textureIdToName|, i requires 0 <= i < |textureIdToName| => EntryOf(i, textureIdToName[i]))
    }

    function EntryOf(id: int, name: string): TextureInfo
    {
      if name in textureInfo then TextureInfo(name, textureInfo[name].displayName, textureInfo[name].color, Some(id))
      else TextureInfo(name, Capitalize(name), DefaultColor(name), Some(id))
    }

    /** No body for "default"; otherwise whatever the file yields. */
    function GetTextureSvg(textureId: int, svgOf: string -> Option<string>): (r: Option<string>)
      ensures GetTextureName(textureId) == "default" ==> r == None
      ensures GetTextureName(textureId) != "default" ==> r == svgOf(GetTextureName(textureId))
    {
      var textureName := GetTextureName(textureId);
      if textureName == "default" then None else svgOf(textureName)
    }

    function GetFilterId(textureId: int): (r: string)
      ensures GetTextureName(textureId) == "default" <==> r == ""
      ensures r != "" ==> r == "#" + GetTextureName(textureId) + "-filter"
    {
      var textureName := GetTextureName(textureId);
      if textureName == "default" then "" else "#" + textureName + "-filter"
    }

    /** A name looked up by id is found again by name and the other way round; an unregistered id reads "earth". */
    lemma LookupRoundTrip(textureId: int, textureName: string)
      requires Valid()
      ensures IsValidTextureId(textureId) ==> GetTextureId(GetTextureName(textureId)) == Some(textureId)
      ensures GetTextureId(textureName).Some? ==> GetTextureName(GetTextureId(textureName).value) == textureName
      ensures !IsValidTextureId(textureId) ==> GetTextureName(textureId) == "earth"
    {
    }
  }

  lemma {:induction false} IdMapKeys(names: seq<string>)
    ensures forall i :: i in IdMap(names) <==> 0 <= i < |names|
    ensures forall i :: 0 <= i < |names| ==> IdMap(names)[i] == names[i]
    ensures |IdMap(names)| == |names|
    decreases |names|
  {
    if names != [] {
      var init := names[..|names| - 1];
      IdMapKeys(init);
      assert |names| - 1 !in IdMap(init);
    }
  }

  /** Under dense ids, the id one past the largest is the number of names. */
  lemma NextIdIsCount(names: seq<string>, id: int)
    requires IdMap(names) == map[] ==> id == 0
    requires forall k :: k in IdMap(names) ==> k < id
    requires IdMap(names) != map[] ==> id - 1 in IdMap(names)
    ensures id == |names|
  {
    IdMapKeys(names);
  }

  lemma {:induction false} NameMapKeys(names: seq<string>)
    ensures forall n :: n in NameMap(names) <==> n in names
    decreases |names|
  {
    if names != [] {
      var init := names[..|names| - 1];
      NameMapKeys(init);
      assert names == init + [names[|names| - 1]];
    }
  }

  lemma {:induction false} NameMapValues(names: seq<string>)
    requires Distinct(names)
    ensures forall i :: 0 <= i < |names| ==> names[i] in NameMap(names) && NameMap(names)[names[i]] == i
    decreases |names|
  {
    if names != [] {
      var init := names[..|names| - 1];
      assert Distinct(init);
      NameMapValues(init);
      NameMapKeys(init);
    }
  }

  lemma InverseMaps(names: seq<string>)
    requires Distinct(names)
    ensures forall id :: id in IdMap(names) ==> IdMap(names)[id] in NameMap(names) && NameMap(names)[IdMap(names)[id]] == id
    ensures forall n :: n in NameMap(names) ==> NameMap(names)[n] in IdMap(names) && IdMap(names)[NameMap(names)[n]] == n
  {
    IdMapKeys(names);
    NameMapKeys(names);
    NameMapValues(names);
    forall n | n in NameMap(names) ensures NameMap(names)[n] in IdMap(names) && IdMap(names)[NameMap(names)[n]] == n {
      var i :| 0 <= i < |names| && names[i] == n;
    }
  }

  /** Registering a new name extends both maps with the next id. */
  lemma RegisterMaps(names: seq<string>, name: string)
    requires Distinct(names) && name !in names
    ensures Distinct(names + [name])
    ensures IdMap(names + [name]) == IdMap(names)[|names| := name]
    ensures NameMap(names + [name]) == NameMap(names)[name := |names|]
  {
    DistinctSnoc(names, name);
    var all := names + [name];
    assert all[..|all| - 1] == names;
    assert all[|all| - 1] == name;
  }

  lemma DistinctSnoc(names: seq<string>, name: string)
    requires Distinct(names) && name !in names
    ensures Distinct(names + [name])
  {
    var all := names + [name];
    forall i, j | 0 <= i < j < |all| ensures all[i] != all[j] {
      if j == |names| {
        assert all[i] == names[i];
      }
    }
  }

  lemma InfoMapEmpty(base: map<string, TextureInfo>, names: seq<string>, svgOf: string -> Option<string>)
    ensures base + InfoMap(names[|names|..], svgOf) == base
  {
    assert names[|names|..] == [];
  }

  lemma InfoMapSnoc(base: map<string, TextureInfo>, before: seq<string>, from: nat, name: string, svgOf: string -> Option<string>)
    requires from <= |before|
    ensures (base + InfoMap(before[from..], svgOf))[name := LoadedInfo(name, svgOf)] == base + InfoMap((before + [name])[from..], svgOf)
  {
    assert (before + [name])[from..] == before[from..] + [name];
  }

  // ---------------------------------------------------------------- properties of registration

  lemma {:induction false} RegisteredExtends(r: seq<string>, known: seq<string>, present: string -> bool)
    ensures |r| <= |Registered(r, known, present)| && Registered(r, known, present)[..|r|] == r
    ensures forall x :: x in Registered(r, known, present) ==> x in r || x in known
    decreases |known|
  {
    if known != [] {
      RegisteredExtends(r, known[..|known| - 1], present);
    }
  }

  /** After registration every present known texture is registered. */
  lemma {:induction false} PresentAreRegistered(r: seq<string>, known: seq<string>, present: string -> bool)
    ensures forall x :: x in known && present(x) ==> x in Registered(r, known, present)
    decreases |known|
  {
    if known != [] {
      var init := known[..|known| - 1];
      PresentAreRegistered(r, init, present);
      forall x | x in known && present(x) ensures x in Registered(r, known, present) {
        if x != known[|known| - 1] {
          assert x in init;
        }
      }
    }
  }

  /** When every present known texture is already registered, registration changes nothing. */
  lemma {:induction false} RegisteredUnchanged(r: seq<string>, known: seq<string>, present: string -> bool)
    requires forall x :: x in known && present(x) ==> x in r
    ensures Registered(r, known, present) == r
    decreases |known|
  {
    if known != [] {
      var init := known[..|known| - 1];
      assert forall x :: x in init ==> x in known;
      RegisteredUnchanged(r, init, present);
    }
  }

  /** Running registration a second time registers nothing new. */
  lemma SecondRegistrationIsNoOp(r: seq<string>, present: string -> bool)
    ensures Registered(Registered(r, KnownTextures, present), KnownTextures, present) == Registered(r, KnownTextures, present)
  {
    PresentAreRegistered(r, KnownTextures, present);
    RegisteredUnchanged(Registered(r, KnownTextures, present), KnownTextures, present);
  }

  /** From an empty registry the ids go to the present known textures, consecutively from 0 in list order. */
  lemma {:induction false} RegisteredFromEmpty(known: seq<string>, present: string -> bool)
    requires Distinct(known)
    ensures Registered([], known, present) == Present(known, present)
    decreases |known|
  {
    if known != [] {
      var init := known[..|known| - 1];
      var last := known[|known| - 1];
      assert Distinct(init);
      RegisteredFromEmpty(init, present);
      RegisteredExtends([], init, present);
      assert last !in init;
    }
  }

  lemma KnownTexturesDistinct()
    ensures Distinct(KnownTextures)
  {
  }

  /** A fresh service, registered once, numbers the present known textures 0, 1, ... in list order. */
  lemma FreshRegistry(present: string -> bool)
    ensures IdMap(Registered([], KnownTextures, present)) == IdMap(Present(KnownTextures, present))
  {
    KnownTexturesDistinct();
    RegisteredFromEmpty(KnownTextures, present);
  }
}
