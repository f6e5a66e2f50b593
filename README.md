# dsatable2 battlemap codec and renderer, in Dafny

This project models the battlemap part of dsatable2, a web table for the
tabletop role-playing game *Das Schwarze Auge* (DSA), together with the rule
components that sit beside it.

* **Wire codec, both sides.** The Angular map editor packs a battlemap into a
  compact link. Terrain ids become a 5-bit run-length stream, or the legacy
  4-bit nibble format. Water becomes one bit per cell, least significant bit
  first. Scenery objects (tree, stone, house) become a little-endian record
  stream. The Spring backend's `BattlemapImageRequest` unpacks the same
  fields. Modules `GridFormat`, `MapEditorCodec`, `MapEditorData`,
  `BattlemapRequest` and `CodecAgreement`. The last relates the two sides,
  including where they disagree.
* **Renderer.** `BattlemapImageController` answers `GET` with an SVG image.
  It normalises the Base64 parameter, picks gzip, raw JSON or deflate, and
  draws the terrain in three passes over the cells. It flood-fills the water
  into 4-connected blobs and draws them through one mask of rounded tiles,
  which reaches past the map edges that have water. Tokens and scenery are
  drawn on top. Any exception becomes an error image. Modules
  `BattlemapImage`, `SvgRender`, `SvgText`, `TokenMarkup`, `WaterBlobs` and
  `WaterPaths`.
* **Texture registry.** `BackgroundTextureService` numbers the known texture
  files consecutively and answers lookups with an `earth` fallback. Modelled
  in `BackgroundTextures` as a class with the service's three maps.
* **Editor state.** The battlemap editor component resizes, paints, fills
  and packs its cell arrays in place (`BattlemapEditor`). The fog-of-war
  service paints revealed cells (`Fog`).
* **DSA rules.** These cover:
  * property names (`PropertyNames`);
  * talent check strings and the armour handicap (BE) rule of `Ability`
    (`Abilities`);
  * derived character values and the dodge bonus (`Characters`);
  * attack and parry rolls (`Rolls`);
  * the talent check of the game session page (`TalentChecks`).

  Dice results are inputs.

Code that updates state keeps that form. The editor component, the texture
service, the fog service, `Ability`, `Character` and the talent-check page
are classes whose methods modify their fields. The decoders, the encoders,
the flood fill and the string builders are methods with loops, or the
source's recursion over an `array<bool>`. Each is proved against a
specification function. The properties are lemmas about those functions:
round trips, exact lengths, partitions, bounds and frames.

`Integer.parseInt`, JavaScript's `%` and `Math.round` are written out
where the modelled code uses them: `Math.round` of a float quotient in the
character's derived values (`Characters.RoundHalf`, `Characters.RoundFifth`)
and of a JavaScript number in the scenery packer (`MapEditorCodec.JsRound`,
on positions and sizes held as reals). Dafny's `/` stands for the source's
division only where the two agree: `Math.floor` of a quotient by a positive
number, or non-negative operands.

The model follows the code as written, including these points:

* The scenery decoder of `BattlemapImageRequest` checks for five remaining
  bytes, although a record needs six. The model keeps the five-byte guard
  as written, next to the six-byte one (finding 2 below).
* The nibble format is chosen when the payload length lies within one of
  `total / 2` (integer division), not of `⌈total / 2⌉`.
* A water corner is rounded only when its two neighbours and its diagonal
  neighbour lie inside the grid and outside the blob. So tiles on the grid
  border keep square corners there, even when they are isolated.
* The flood fill recurses, as the source does: mutual recursion between
  `WaterBlobs.FloodFill` and `WaterBlobs.FillNeighbour`.
* The error image has a pale red panel (`#ffcccc`) with dark red text.

## Model

| member | source | states |
|---|---|---|
| Common.ToBytes | dsa-table-backend/src/main/java/de/byedev/dsatable2/dsa_table_backend/web/dto/BattlemapImageRequest.java:155-159 | a JSON number list becomes a byte array of the same length whose entries are the numbers' low eight bits |
| Common.SmallByte | dsa-table-backend/src/main/java/de/byedev/dsatable2/dsa_table_backend/web/dto/BattlemapImageRequest.java:158 | a number that already fits in a byte survives `byteValue()` unchanged |
| Text.ParseDecimalOfIntToString | dsa-table-frontend/src/app/services/fog-of-war.service.ts:73-80 | reading back a decimal rendering gives the same integer, negative ones included |
| Text.JavaParseInt | dsa-table-backend/src/main/java/de/byedev/dsatable2/dsa_table_backend/model/Ability.java:134-142 | `Integer.parseInt` succeeds only on an optionally signed digit string in the 32-bit range, and then yields a value in that range |
| Text.ParseTwoHexDigits | dsa-table-frontend/src/app/components/map-editor-page/map-editor-page.component.ts:720-734 | two hex digits parse to `16 * high + low`, and `%02x` writes that value back as the same digits in lower case |
| Text.JsSplit | dsa-table-frontend/src/app/services/fog-of-war.service.ts:78 | `split` of a single character yields at least one piece; the pieces contain no separator and joined with it give back the input |
| Text.JsSplitFirst | dsa-table-frontend/src/app/services/fog-of-war.service.ts:78 | splitting at the first separator yields the piece before it followed by the pieces of the rest |
| Text.JavaSplit | dsa-table-backend/src/main/java/de/byedev/dsatable2/dsa_table_backend/model/Ability.java:171 | Java's `split` returns the input unchanged when the separator is absent, and otherwise the pieces with trailing empty pieces dropped |
| Text.ReplaceChar | dsa-table-backend/src/main/java/de/byedev/dsatable2/dsa_table_backend/web/BattlemapImageController.java:77-81 | `String.replace` of a character leaves no occurrence of it when the replacement does not contain it, and changes nothing else |
| Text.RemoveFirst | dsa-table-frontend/src/app/components/map-editor-page/map-editor-page.component.ts:722 | `replace('#', '')` leaves a string without `#` unchanged and otherwise removes exactly the first `#` |
| Text.JsSubstring | dsa-table-frontend/src/app/components/map-editor-page/map-editor-page.component.ts:723-725 | `substring(a, b)` clamps both indexes to the length and so never yields more than `b - a` characters |
| BattlemapRequest.PixelSize | dsa-table-backend/src/main/java/de/byedev/dsatable2/dsa_table_backend/web/dto/BattlemapImageRequest.java:84-97 | a canvas side is 32 px per cell when the grid side is positive, else the positive legacy canvas size, else 512; it is always positive |
| BattlemapRequest.ListBytes | dsa-table-backend/src/main/java/de/byedev/dsatable2/dsa_table_backend/web/dto/BattlemapImageRequest.java:218-230 | the scenery field yields bytes exactly when it is a JSON number list |
| BattlemapRequest.PayloadBytes | dsa-table-backend/src/main/java/de/byedev/dsatable2/dsa_table_backend/web/dto/BattlemapImageRequest.java:146-174 | absent input, an empty string or another JSON type gives null; a number list gives its bytes; Base64 text goes through the decoder (also lines 287-315) |
| BattlemapRequest.CopyNumberList | dsa-table-backend/src/main/java/de/byedev/dsatable2/dsa_table_backend/web/dto/BattlemapImageRequest.java:155-159 | the copy loop produces exactly the converted number list |
| BattlemapRequest.ReadPayload | dsa-table-backend/src/main/java/de/byedev/dsatable2/dsa_table_backend/web/dto/BattlemapImageRequest.java:146-174 | the payload read of both packed fields equals the payload-bytes specification (number list only for scenery) |
| BattlemapRequest.WaterOf | dsa-table-backend/src/main/java/de/byedev/dsatable2/dsa_table_backend/web/dto/BattlemapImageRequest.java:145-191 | water decodes to null iff the payload is missing, empty, undecodable or the grid is non-positive; otherwise to exactly `gw*gh` cells |
| BattlemapRequest.DecodeWater | dsa-table-backend/src/main/java/de/byedev/dsatable2/dsa_table_backend/web/dto/BattlemapImageRequest.java:145-191 | the decoder's nested loops produce exactly the water-grid specification |
| BattlemapRequest.UnpackWaterByte | dsa-table-backend/src/main/java/de/byedev/dsatable2/dsa_table_backend/web/dto/BattlemapImageRequest.java:185-187 | the inner loop writes cells `8j` up to `8j+7` (while cells remain) as bit `k % 8` of byte `j`, least significant first, and nothing else |
| BattlemapRequest.WaterGridOf | dsa-table-backend/src/main/java/de/byedev/dsatable2/dsa_table_backend/web/dto/BattlemapImageRequest.java:181-190 | once every byte is consumed, the array holds cell `k` = bit `k % 8` of byte `k / 8`, with cells past the payload false |
| BattlemapRequest.RleGrid | dsa-table-backend/src/main/java/de/byedev/dsatable2/dsa_table_backend/web/dto/BattlemapImageRequest.java:341-373 | the run-length branch yields exactly `total` cells |
| BattlemapRequest.PackedBackgroundsOf | dsa-table-backend/src/main/java/de/byedev/dsatable2/dsa_table_backend/web/dto/BattlemapImageRequest.java:286-376 | null iff the payload is missing, empty, undecodable or the grid is non-positive; otherwise exactly `total` cells, chosen as nibbles iff `total/2 - 1 <= len <= total/2 + 1` |
| BattlemapRequest.CorrectedBackgroundsOf | dsa-table-backend/src/main/java/de/byedev/dsatable2/dsa_table_backend/web/dto/BattlemapImageRequest.java:286-376 | the same null cases and length as the decoder, with the corrected format choice |
| BattlemapRequest.DecodeNibbles | dsa-table-backend/src/main/java/de/byedev/dsatable2/dsa_table_backend/web/dto/BattlemapImageRequest.java:328-339 | the nibble loop yields cell `i` = low nibble of byte `i/2` for even `i`, high nibble for odd `i`, 0 past the payload |
| BattlemapRequest.AppendRun | dsa-table-backend/src/main/java/de/byedev/dsatable2/dsa_table_backend/web/dto/BattlemapImageRequest.java:351-354 | a run appends up to `count` copies of its value and never passes `total` cells |
| BattlemapRequest.ZeroFill | dsa-table-backend/src/main/java/de/byedev/dsatable2/dsa_table_backend/web/dto/BattlemapImageRequest.java:368-372 | the cells the stream did not reach are filled with 0 up to `total` |
| BattlemapRequest.DecodeRle | dsa-table-backend/src/main/java/de/byedev/dsatable2/dsa_table_backend/web/dto/BattlemapImageRequest.java:341-373 | the run-length loop yields the stream's cells cut at `total` (a marker with fewer than two following bytes stops it) and zero-fills the rest |
| BattlemapRequest.ReadRleBlock | dsa-table-backend/src/main/java/de/byedev/dsatable2/dsa_table_backend/web/dto/BattlemapImageRequest.java:346-365 | one pass reads a run `FF v c`, a direct byte `b & 0x1f`, or stops at a marker without two following bytes |
| BattlemapRequest.DecodePackedBackgrounds | dsa-table-backend/src/main/java/de/byedev/dsatable2/dsa_table_backend/web/dto/BattlemapImageRequest.java:286-376 | the decoder as written equals its specification, including the length heuristic |
| BattlemapRequest.DecodePackedBackgroundsCorrected | dsa-table-backend/src/main/java/de/byedev/dsatable2/dsa_table_backend/web/dto/BattlemapImageRequest.java:286-376 | the decoder with the corrected format choice equals its specification |
| BattlemapRequest.GetCellBackgrounds | dsa-table-backend/src/main/java/de/byedev/dsatable2/dsa_table_backend/web/dto/BattlemapImageRequest.java:107-112 | a raw `bg` list always takes precedence over the packed field, which is decoded only when the list is absent, with the corrected format choice of finding 1 |
| BattlemapRequest.RecordAt | dsa-table-backend/src/main/java/de/byedev/dsatable2/dsa_table_backend/web/dto/BattlemapImageRequest.java:236-270 | a record has at least its six header bytes: type, little-endian x and y, flags, then colour and size when flagged |
| BattlemapRequest.ReadRecord | dsa-table-backend/src/main/java/de/byedev/dsatable2/dsa_table_backend/web/dto/BattlemapImageRequest.java:240-277 | the successive `bytes[byteIdx++]` reads of one record produce exactly the record specification, including the type-name fallback and `isGmOnly = false` |
| BattlemapRequest.DecodeEnvironmentObjects | dsa-table-backend/src/main/java/de/byedev/dsatable2/dsa_table_backend/web/dto/BattlemapImageRequest.java:213-284 | the decoding loop produces exactly the scenery specification for the given record-length guard, including the out-of-bounds outcome |
| BattlemapRequest.GetAllTokens | dsa-table-backend/src/main/java/de/byedev/dsatable2/dsa_table_backend/web/dto/BattlemapImageRequest.java:196-211 | the regular tokens in request order followed by the decoded scenery tokens in stream order |
| GridFormat.WellFormedReadingsAgree | dsa-table-frontend/src/app/components/map-editor-page/map-editor-page.component.ts:554-567 | on a well-formed run-length stream the editor's and the renderer's readings of a short marker never differ |
| GridFormat.RleCellsAreFiveBit | dsa-table-backend/src/main/java/de/byedev/dsatable2/dsa_table_backend/web/dto/BattlemapImageRequest.java:349-362 | every cell a run-length stream spells is a 5-bit terrain id |
| GridFormat.NibbleCell | dsa-table-frontend/src/app/components/map-editor-page/map-editor-page.component.ts:600-604 | a nibble cell is below 16 |
| GridFormat.NibbleCells | dsa-table-frontend/src/app/components/map-editor-page/map-editor-page.component.ts:595-606 | the nibble unpacker yields exactly `total` cells, cell `i` taken from byte `i/2` |
| GridFormat.WaterGrid | dsa-table-frontend/src/app/components/map-editor-page/map-editor-page.component.ts:754-767 | the water unpacker yields exactly `total` cells, cell `k` = bit `k % 8` of byte `k / 8`, false past the payload |
| GridFormat.RleCellsStep | dsa-table-frontend/src/app/components/map-editor-page/map-editor-page.component.ts:554-567 | one reading step: a complete marker expands to `count` copies of `v & 0x1f`; any other byte contributes one cell `b & 0x1f` |
| GridFormat.ColorHex | dsa-table-backend/src/main/java/de/byedev/dsatable2/dsa_table_backend/web/dto/BattlemapImageRequest.java:261 | a scenery colour is `#` followed by six lower-case hex digits |
| GridFormat.EncoderCells | dsa-table-frontend/src/app/components/map-editor-page/map-editor-page.component.ts:519-539 | the encoder reads `bg[i] ?? 0` for each of the first `total` indexes, none for a non-positive total |
| GridFormat.RunLength | dsa-table-frontend/src/app/components/map-editor-page/map-editor-page.component.ts:520-525 | a measured run is at most 255 cells and stays inside the grid |
| GridFormat.RunLengthSpan | dsa-table-frontend/src/app/components/map-editor-page/map-editor-page.component.ts:523-525 | a measured run is maximal: every cell in it equals the masked first value, and it ends at the grid's end, at 255 or at a differing cell |
| GridFormat.RunIsRepeat | dsa-table-frontend/src/app/components/map-editor-page/map-editor-page.component.ts:527-533 | the cells a run covers are all its masked first value |
| GridFormat.RleEncodeStep | dsa-table-frontend/src/app/components/map-editor-page/map-editor-page.component.ts:518-543 | the encoder's output is the block for the run at `i` followed by the output from the end of that run |
| GridFormat.RleEncodeReadsBack | dsa-table-frontend/src/app/components/map-editor-page/map-editor-page.component.ts:513-575 | the packed stream is canonical, and both the editor's and the renderer's readings give back exactly the cells masked to 5 bits |
| GridFormat.RleEncodeLength | dsa-table-frontend/src/app/components/map-editor-page/map-editor-page.component.ts:527-542 | the packed stream is never longer than the grid, since a run of three or more cells takes 3 bytes |
| GridFormat.BitOfPackBits | dsa-table-frontend/src/app/components/map-editor-page/map-editor-page.component.ts:741-748 | bit `k` of a packed water byte is set iff cell `k` of its chunk has water |
| GridFormat.PackBitsSnoc | dsa-table-frontend/src/app/components/map-editor-page/map-editor-page.component.ts:744-746 | or-ing `1 << bit` into the byte sets exactly the next bit when the cell has water |
| GridFormat.WaterChunk | dsa-table-frontend/src/app/components/map-editor-page/map-editor-page.component.ts:743 | the cells packed into byte `k` are `water[8k + b] ?? false`, at most eight of them |
| GridFormat.WaterBytes | dsa-table-frontend/src/app/components/map-editor-page/map-editor-page.component.ts:736-752 | the water packer emits `ceil(total / 8)` bytes |
| GridFormat.WaterBytesReadBack | dsa-table-frontend/src/app/components/map-editor-page/map-editor-page.component.ts:736-767 | water cell `k` read back from the packed bytes is `water[k]`, and every cell past the grid is dry |
| MapEditorCodec.PackBackgroundsToBytes | dsa-table-frontend/src/app/components/map-editor-page/map-editor-page.component.ts:513-546 | the packer's output is exactly the run-length encoding of the first `total` cells, with missing cells read as 0 |
| MapEditorCodec.PackRun | dsa-table-frontend/src/app/components/map-editor-page/map-editor-page.component.ts:519-542 | one pass of the outer loop appends the block for the run at cell `i`: a marker triple for three or more cells, direct values otherwise |
| MapEditorCodec.MeasureRun | dsa-table-frontend/src/app/components/map-editor-page/map-editor-page.component.ts:520-525 | the inner loop measures exactly the maximal run at cell `i`, capped at 255 |
| MapEditorCodec.AppendDirect | dsa-table-frontend/src/app/components/map-editor-page/map-editor-page.component.ts:538-540 | a short run is written as one masked byte per cell |
| MapEditorCodec.WriteRun | dsa-table-frontend/src/app/components/map-editor-page/map-editor-page.component.ts:559-561 | a run writes up to `count` copies of its value from the current index, never past the end of the array, and leaves the other entries alone |
| MapEditorCodec.UnpackBackgroundsFromBytes | dsa-table-frontend/src/app/components/map-editor-page/map-editor-page.component.ts:548-575 | the unpacker yields the first `total` cells of the stream, reads a lone trailing marker as the direct value 31, and zero-fills the rest |
| MapEditorCodec.DecodeRuns | dsa-table-frontend/src/app/components/map-editor-page/map-editor-page.component.ts:554-567 | the decoding loop writes the stream's cells, cut at the array's end |
| MapEditorCodec.DecodeBlock | dsa-table-frontend/src/app/components/map-editor-page/map-editor-page.component.ts:555-566 | one pass writes the run or the direct value at the current byte, advances past it, and leaves the cells already written alone |
| MapEditorCodec.RunLengthRoundTrip | dsa-table-frontend/src/app/components/map-editor-page/map-editor-page.component.ts:513-575 | unpacking what the page packed gives back the first `total` cells masked to 5 bits, with missing cells as 0 |
| MapEditorCodec.RunLengthRoundTripIdentity | dsa-table-frontend/src/app/components/map-editor-page/map-editor-page.component.ts:513-575 | on a grid of `gw*gh` values in [0,31], unpacking after packing is the identity |
| MapEditorCodec.NibbleBytes | dsa-table-frontend/src/app/components/map-editor-page/map-editor-page.component.ts:582-591 | the nibble packer emits `ceil(total / 2)` bytes |
| MapEditorCodec.PackNibbles | dsa-table-frontend/src/app/components/map-editor-page/map-editor-page.component.ts:579-591 | the nibble bytes hold cell `i` in the low nibble of byte `i/2` when `i` is even and in the high nibble when odd; a negative length is the array constructor's error |
| MapEditorCodec.PackBackgrounds | dsa-table-frontend/src/app/components/map-editor-page/map-editor-page.component.ts:579-593 | the legacy packer is the nibble bytes passed to the Base64 encoder, with the same error case |
| MapEditorCodec.UnpackBackgrounds | dsa-table-frontend/src/app/components/map-editor-page/map-editor-page.component.ts:595-606 | the legacy unpacker yields the nibble cells of the decoded text |
| MapEditorCodec.NibbleRoundTrip | dsa-table-frontend/src/app/components/map-editor-page/map-editor-page.component.ts:579-606 | the nibble round trip returns every cell masked to 4 bits, which is the identity for values in [0,15] |
| MapEditorCodec.PackWater | dsa-table-frontend/src/app/components/map-editor-page/map-editor-page.component.ts:736-752 | the water packer writes eight cells per byte, least significant bit first, `ceil(n/8)` bytes |
| MapEditorCodec.PackWaterByte | dsa-table-frontend/src/app/components/map-editor-page/map-editor-page.component.ts:742-747 | the inner loop builds the byte whose bit `b` is `water[i + b]` for the cells that remain |
| MapEditorCodec.UnpackWater | dsa-table-frontend/src/app/components/map-editor-page/map-editor-page.component.ts:754-767 | the water unpacker yields `total` cells, cell `k` being bit `k % 8` of byte `k / 8`, false beyond the payload |
| MapEditorCodec.WaterRoundTrip | dsa-table-frontend/src/app/components/map-editor-page/map-editor-page.component.ts:736-767 | `unpackWater(packWater(w)) == w` for any cell count, a multiple of eight or not; missing cells come back dry |
| MapEditorCodec.TypeCode | dsa-table-frontend/src/app/components/map-editor-page/map-editor-page.component.ts:619-627 | the type byte is the name's index in the type map (tree 0, stone 1, house 2), 0 for any other name |
| MapEditorCodec.JsRound | dsa-table-frontend/src/app/components/map-editor-page/map-editor-page.component.ts:631 | `Math.round` yields the integer within half of the value, halves rounded up |
| MapEditorCodec.RoundExamples | dsa-table-frontend/src/app/components/map-editor-page/map-editor-page.component.ts:631 | `Math.round` takes 2.5 to 3, -2.5 to -2, 10.4 to 10 and 10.6 to 11 |
| MapEditorCodec.ClampSize | dsa-table-frontend/src/app/components/map-editor-page/map-editor-page.component.ts:659 | the size byte is `min(255, max(0, n))` of the rounded size `n`, and `n` itself when it is in [0,255] |
| MapEditorCodec.Word16 | dsa-table-frontend/src/app/components/map-editor-page/map-editor-page.component.ts:631-638 | a rounded coordinate is written as `v & 0xFFFF`, low byte first |
| MapEditorCodec.RecordFlags | dsa-table-frontend/src/app/components/map-editor-page/map-editor-page.component.ts:641-647 | flag bit 0 is set iff the object has a colour and bit 1 iff it has a size |
| MapEditorCodec.ColorBytes | dsa-table-frontend/src/app/components/map-editor-page/map-editor-page.component.ts:650-655 | three colour bytes are written iff the object has a colour |
| MapEditorCodec.SizeBytes | dsa-table-frontend/src/app/components/map-editor-page/map-editor-page.component.ts:658-660 | one size byte is written iff the object has a size |
| MapEditorCodec.EnvRecord | dsa-table-frontend/src/app/components/map-editor-page/map-editor-page.component.ts:625-660 | a record is six header bytes, with `Math.round` of x and y, plus the colour bytes and the byte of the rounded, clamped size |
| MapEditorCodec.PackEnvironmentObjects | dsa-table-frontend/src/app/components/map-editor-page/map-editor-page.component.ts:615-664 | the packer writes the records of all objects, in order, positions and sizes rounded |
| MapEditorCodec.WriteEnvRecord | dsa-table-frontend/src/app/components/map-editor-page/map-editor-page.component.ts:626-660 | the pushes of one loop pass write exactly the object's record, rounding x, y and size as `Math.round` does |
| MapEditorCodec.EnvRecordAt | dsa-table-frontend/src/app/components/map-editor-page/map-editor-page.component.ts:672-705 | a record read from byte `i` ends at least six bytes later; a five-byte tail reads as an object with neither colour nor size; a cut-off colour or size ends reading |
| MapEditorCodec.ReadEnvRecord | dsa-table-frontend/src/app/components/map-editor-page/map-editor-page.component.ts:676-714 | the successive `bytes[byteIdx++]` reads of one pass produce exactly the record specification |
| MapEditorCodec.UnpackEnvironmentObjects | dsa-table-frontend/src/app/components/map-editor-page/map-editor-page.component.ts:666-718 | the unpacker reads records until fewer than five bytes remain or a record is cut off, numbering objects from 1 |
| MapEditorCodec.DecodedColor | dsa-table-frontend/src/app/components/map-editor-page/map-editor-page.component.ts:697 | a decoded colour is `#` and six hex digits (also lines 729-734) |
| MapEditorCodec.DecodedAll | dsa-table-frontend/src/app/components/map-editor-page/map-editor-page.component.ts:707-714 | decoding numbers the objects consecutively from the first id and keeps their order |
| MapEditorCodec.EnvRecordReads | dsa-table-frontend/src/app/components/map-editor-page/map-editor-page.component.ts:615-718 | one record reads back as the object's decoded form, and reading goes on right after it |
| MapEditorCodec.EnvRoundTrip | dsa-table-frontend/src/app/components/map-editor-page/map-editor-page.component.ts:615-718 | unpacking packed scenery gives back every object in its decoded form (rounded position and size), numbered consecutively |
| MapEditorCodec.ValidColorPairs | dsa-table-frontend/src/app/components/map-editor-page/map-editor-page.component.ts:720-734 | each channel of a valid `#rrggbb` colour prints back as its digit pair in lower case |
| MapEditorCodec.ValidColorReads | dsa-table-frontend/src/app/components/map-editor-page/map-editor-page.component.ts:720-734 | `rgbToHex(hexToRgb(c))` is `c` in lower case for every valid colour |
| MapEditorCodec.KnownTypeReads | dsa-table-frontend/src/app/components/map-editor-page/map-editor-page.component.ts:619-627 | tree, stone and house are written as their index and read back as themselves (also lines 668, 677) |
| MapEditorCodec.Rounded | dsa-table-frontend/src/app/components/map-editor-page/map-editor-page.component.ts:631-659 | an object's rounded form has whole coordinates and a whole size |
| MapEditorCodec.PackedAsRounded | dsa-table-frontend/src/app/components/map-editor-page/map-editor-page.component.ts:631-659 | an object is written exactly as its rounded form, so only the rounded position and size reach the link |
| MapEditorCodec.RoundedWhole | dsa-table-frontend/src/app/components/map-editor-page/map-editor-page.component.ts:631-659 | rounding leaves an object with whole coordinates and size unchanged |
| MapEditorCodec.RepresentableDecoded | dsa-table-frontend/src/app/components/map-editor-page/map-editor-page.component.ts:615-718 | an object with a known type, whole coordinates in [0,65535], a valid colour and a whole size in [0,255] decodes to itself with a new id and a lower-case colour |
| MapEditorCodec.RepresentableRoundTrip | dsa-table-frontend/src/app/components/map-editor-page/map-editor-page.component.ts:615-718 | objects whose rounded form is representable come back as that rounded form, renumbered 1..n with lower-case colours; whole-number objects come back unchanged but for ids and colours |
| MapEditorCodec.RoundedDecoded | dsa-table-frontend/src/app/components/map-editor-page/map-editor-page.component.ts:615-718 | an object whose rounded form is representable decodes to that rounded form with a new id |
| MapEditorCodec.FractionalObjectRounded | dsa-table-frontend/src/app/components/map-editor-page/map-editor-page.component.ts:615-718 | an object at (10.4, 20.5) of size 39.5 comes back at (10, 21) with size 40 |
| MapEditorCodec.UnknownTypeReadsAsTree | dsa-table-frontend/src/app/components/map-editor-page/map-editor-page.component.ts:627 | a type outside the map, such as "tree3", is written as 0 and read back as "tree" (also line 677) |
| MapEditorData.OrElse | dsa-table-frontend/src/app/components/map-editor-page/map-editor-page.component.ts:457-458 | `a ?? b` is `a` when present and `b` otherwise (also line 508) |
| MapEditorData.CompactData | dsa-table-frontend/src/app/components/map-editor-page/map-editor-page.component.ts:421-454 | `compactData` writes `eob` only for a non-empty object list, `bgp` only when some cell is not 0, and `wp` only when some cell has water |
| MapEditorData.WaterOf | dsa-table-frontend/src/app/components/map-editor-page/map-editor-page.component.ts:485-501 | the expanded water always has exactly `gw*gh` cells |
| MapEditorData.ExpandData | dsa-table-frontend/src/app/components/map-editor-page/map-editor-page.component.ts:456-511 | `expandData` over the codec's unpackers equals its specification: sizes default to 16, then terrain, scenery, water and tokens |
| MapEditorData.ExpandBackgrounds | dsa-table-frontend/src/app/components/map-editor-page/map-editor-page.component.ts:459-469 | a raw `cellBackgrounds` wins; otherwise `bgp` is unpacked as Base64 nibbles or as run-length bytes |
| MapEditorData.ExpandScenery | dsa-table-frontend/src/app/components/map-editor-page/map-editor-page.component.ts:471-482 | `eob` is unpacked when it is an array; otherwise `eo`, then `environmentObjects`, then an empty list |
| MapEditorData.ExpandWater | dsa-table-frontend/src/app/components/map-editor-page/map-editor-page.component.ts:484-501 | a raw `cellWater` wins over `wp`, and a missing list or one of the wrong length becomes `gw*gh` dry cells |
| MapEditorData.ExpandDefaults | dsa-table-frontend/src/app/components/map-editor-page/map-editor-page.component.ts:457-458 | a link without size members is a 16 x 16 grid, and its water always has one cell per grid cell (also lines 499-501) |
| MapEditorData.CompactRoundTrip | dsa-table-frontend/src/app/components/map-editor-page/map-editor-page.component.ts:421-511 | through a link the editor data comes back as the unpackers read each packed member |
| MapEditorData.CompactScenery | dsa-table-frontend/src/app/components/map-editor-page/map-editor-page.component.ts:429-432 | the scenery member of the link round trip reads back as the unpacked records, positions and sizes rounded (also lines 473-475) |
| MapEditorData.CompactBackgrounds | dsa-table-frontend/src/app/components/map-editor-page/map-editor-page.component.ts:434-442 | the terrain member of the link round trip reads back as the unpacked stream, or stays absent when every cell is 0 (also lines 459-469) |
| MapEditorData.CompactWater | dsa-table-frontend/src/app/components/map-editor-page/map-editor-page.component.ts:444-451 | the water member of the link round trip reads back as the unpacked bits, or as dry cells when there is no water (also lines 484-501) |
| MapEditorData.ConsistentRoundTrip | dsa-table-frontend/src/app/components/map-editor-page/map-editor-page.component.ts:421-511 | for consistent data a link loses only what the editor treats alike: all-default terrain comes back absent, absent lists come back empty or dry, objects are renumbered, colours lower-cased and fractional positions and sizes rounded |
| MapEditorData.LinkBytes | dsa-table-frontend/src/app/components/map-editor-page/map-editor-page.component.ts:370-384 | the link carries the gzip stream only when it is more than 20 bytes shorter than the JSON, and the JSON bytes otherwise |
| MapEditorData.LinkBytesRoundTrip | dsa-table-frontend/src/app/components/map-editor-page/map-editor-page.component.ts:370-393 | whichever form the encoder chose, the decoder's gunzip, unzip and plain-text fallbacks recover the JSON bytes |
| CodecAgreement.EditorRleIsComplete | dsa-table-frontend/src/app/components/map-editor-page/map-editor-page.component.ts:513-546 | every stream the editors write is a complete, well-formed run-length stream of exactly `total` cells |
| CodecAgreement.RendererReadsEditorTerrain | dsa-table-backend/src/main/java/de/byedev/dsatable2/dsa_table_backend/web/dto/BattlemapImageRequest.java:286-376 | with the corrected format choice the renderer reads an editor's terrain payload as the editor does: the first `gw*gh` cells masked to 5 bits |
| CodecAgreement.RendererReadsEditorGrid | dsa-table-backend/src/main/java/de/byedev/dsatable2/dsa_table_backend/web/dto/BattlemapImageRequest.java:286-376 | on a grid of 5-bit ids the renderer gets back exactly the editor's grid |
| CodecAgreement.EightCellEncoding | dsa-table-frontend/src/app/components/map-editor-page/map-editor-page.component.ts:513-546 | the editor writes an 8 x 1 grid of seven 1s and one 2 as `[FF, 1, 7, 2]` |
| CodecAgreement.NibbleWindowMisreadsEditorStream | dsa-table-backend/src/main/java/de/byedev/dsatable2/dsa_table_backend/web/dto/BattlemapImageRequest.java:324 | the as-written length heuristic reads that 4-byte stream as nibbles, so its first cell comes out as 15 instead of 1; the corrected choice reads the grid |
| CodecAgreement.NibblePayloadInWindow | dsa-table-backend/src/main/java/de/byedev/dsatable2/dsa_table_backend/web/dto/BattlemapImageRequest.java:324 | the legacy nibble packer's payload always falls in the length window |
| CodecAgreement.TrailingMarkerReadings | dsa-table-frontend/src/app/components/map-editor-page/map-editor-page.component.ts:555-565 | a marker with fewer than two following bytes is read as the direct cell 31 by the editor but ends the stream for the renderer (REQ:348-358) |
| CodecAgreement.RendererReadsEditorWater | dsa-table-backend/src/main/java/de/byedev/dsatable2/dsa_table_backend/web/dto/BattlemapImageRequest.java:145-191 | the renderer reads an editor's water payload as the editor does: the first `gw*gh` flags, dry beyond the list |
| CodecAgreement.SceneryShift | dsa-table-backend/src/main/java/de/byedev/dsatable2/dsa_table_backend/web/dto/BattlemapImageRequest.java:236-281 | a prefix does not change how the rest of the scenery stream reads |
| CodecAgreement.RendererRecordOfEditorRecord | dsa-table-backend/src/main/java/de/byedev/dsatable2/dsa_table_backend/web/dto/BattlemapImageRequest.java:236-280 | the renderer reads one editor record as the token of the decoded object |
| CodecAgreement.RendererReadsEditorScenery | dsa-table-backend/src/main/java/de/byedev/dsatable2/dsa_table_backend/web/dto/BattlemapImageRequest.java:213-284 | the renderer turns an editor's scenery payload into one token per object, in order, carrying what the editor reads back |
| CodecAgreement.SceneryReadingsAgree | dsa-table-backend/src/main/java/de/byedev/dsatable2/dsa_table_backend/web/dto/BattlemapImageRequest.java:213-284 | the renderer's scenery tokens are the tokens of the editor's own reading |
| CodecAgreement.FiveByteTail | dsa-table-backend/src/main/java/de/byedev/dsatable2/dsa_table_backend/web/dto/BattlemapImageRequest.java:237-250 | a bare five-byte trailing header passes the guard as written and fails at the flags read; the six-byte guard stops cleanly, and the editor reads it as an object (MEP:673-686) |
| BattlemapEditor.ResizedBackgrounds | dsa-table-frontend/src/app/components/battlemap-editor/battlemap-editor.component.ts:262-280 | after a size change the terrain array has exactly the new size: grown with the default id, or cut, with the existing prefix kept |
| BattlemapEditor.FitWater | dsa-table-frontend/src/app/components/battlemap-editor/battlemap-editor.component.ts:1319-1328 | `emitDataChanged` pads the water array with dry cells or cuts it to exactly `gw*gh` cells |
| BattlemapEditor.BattlemapEditorComponent.EmitDataChanged | dsa-table-frontend/src/app/components/battlemap-editor/battlemap-editor.component.ts:1318-1339 | the water array is fitted to the grid; the emitted data carries the terrain only when there is any and the water only when some cell is wet |
| BattlemapEditor.BattlemapEditorComponent.UpdatePreview | dsa-table-frontend/src/app/components/battlemap-editor/battlemap-editor.component.ts:941-998 | the preview carries `bgp` only when some cell differs from the default id and `wp` only when some cell has water; nothing changes |
| BattlemapEditor.BattlemapEditorComponent.PaintCell | dsa-table-frontend/src/app/components/battlemap-editor/battlemap-editor.component.ts:633-646 | only index `row*gw + col` changes, and only when it is in range and holds another id; the data is emitted exactly then |
| BattlemapEditor.BattlemapEditorComponent.PaintWaterCell | dsa-table-frontend/src/app/components/battlemap-editor/battlemap-editor.component.ts:649-661 | only index `row*gw + col` of the water changes, and only when it is in range and differs; the data is emitted exactly then |
| BattlemapEditor.BattlemapEditorComponent.OnGridSizeChange | dsa-table-frontend/src/app/components/battlemap-editor/battlemap-editor.component.ts:260-284 | both arrays are resized to `gw*gh`, growing with default terrain and dry cells and keeping their prefix; then the preview is rebuilt and the data emitted |
| BattlemapEditor.BattlemapEditorComponent.ResizeGrid | dsa-table-frontend/src/app/components/battlemap-editor/battlemap-editor.component.ts:262-280 | the resizing part of a size change, without the preview and the change event |
| BattlemapEditor.BattlemapEditorComponent.FillAllBackgrounds | dsa-table-frontend/src/app/components/battlemap-editor/battlemap-editor.component.ts:1272-1283 | every cell is set to the selected terrain and the length is kept; an empty grid is left untouched |
| BattlemapEditor.BattlemapEditorComponent.PackBackgrounds | dsa-table-frontend/src/app/components/battlemap-editor/battlemap-editor.component.ts:1097-1129 | the editor's packer is the 5-bit run-length encoding of the grid, with missing cells read as the default id |
| BattlemapEditor.BattlemapEditorComponent.PackWater | dsa-table-frontend/src/app/components/battlemap-editor/battlemap-editor.component.ts:1131-1147 | the editor's water packer is one bit per cell, eight cells per byte |
| BattlemapEditor.ResizedWaterFits | dsa-table-frontend/src/app/components/battlemap-editor/battlemap-editor.component.ts:269-279 | after a size change and the fitting in `emitDataChanged`, the water array is the old one cut or padded with dry cells (also lines 1319-1328) |
| BattlemapEditor.PackedTerrainAccountsForGrid | dsa-table-frontend/src/app/components/battlemap-editor/battlemap-editor.component.ts:1097-1129 | the terrain stream is canonical (values at most 31, runs of 3 to 255 cells) and spells exactly `gw*gh` cells, missing ones as the default id |
| BattlemapEditor.PackedWaterBits | dsa-table-frontend/src/app/components/battlemap-editor/battlemap-editor.component.ts:1131-1147 | there are `ceil(n/8)` water bytes, and bit `b` of byte `k` is set iff `water[8k + b]` |
| BattlemapEditor.PreviewReadsBack | dsa-table-frontend/src/app/components/battlemap-editor/battlemap-editor.component.ts:985-998 | the renderer reads from a preview the grid (missing cells as the default id) and the padded water; an absent terrain means every cell holds the default id |
| BattlemapEditor.EmittedAfterResizeIsConsistent | dsa-table-frontend/src/app/components/battlemap-editor/battlemap-editor.component.ts:260-284 | data emitted after a size change of a 5-bit grid, with the editor's scenery objects whose rounded form fits the format, is data the map editor page's link carries (also lines 1318-1339) |
| BackgroundTextures.Capitalize | dsa-table-backend/src/main/java/de/byedev/dsatable2/dsa_table_backend/service/BackgroundTextureService.java:45-50 | `capitalize` upper-cases the first character and keeps the rest |
| BackgroundTextures.DefaultColor | dsa-table-backend/src/main/java/de/byedev/dsatable2/dsa_table_backend/service/BackgroundTextureService.java:158-170 | every texture has a `#`-prefixed seven-character default colour, grey for an unknown name |
| BackgroundTextures.FirstFillFrom | dsa-table-backend/src/main/java/de/byedev/dsatable2/dsa_table_backend/service/BackgroundTextureService.java:103-107 | the match found is the first position where the fourteen characters of a fill colour start |
| BackgroundTextures.ExtractColorFromSvg | dsa-table-backend/src/main/java/de/byedev/dsatable2/dsa_table_backend/service/BackgroundTextureService.java:100-110 | the colour of the first `fill='#xxxxxx'` (six hex digits) in a texture body, or `#808080` when there is none |
| BackgroundTextures.FillAtEndFound | dsa-table-backend/src/main/java/de/byedev/dsatable2/dsa_table_backend/service/BackgroundTextureService.java:103-107 | a fill colour that ends the texture body, `fill='#123456'`, is found |
| BackgroundTextures.BackgroundTextureService.constructor | dsa-table-backend/src/main/java/de/byedev/dsatable2/dsa_table_backend/service/BackgroundTextureService.java:25-27 | a fresh service has empty maps |
| BackgroundTextures.BackgroundTextureService.NextId | dsa-table-backend/src/main/java/de/byedev/dsatable2/dsa_table_backend/service/BackgroundTextureService.java:66-67 | the next id is 0 for an empty registry and one more than the largest id otherwise |
| BackgroundTextures.BackgroundTextureService.RegisterTexture | dsa-table-backend/src/main/java/de/byedev/dsatable2/dsa_table_backend/service/BackgroundTextureService.java:56-86 | a texture whose file exists and is not yet registered gets the next id in both maps and its info; otherwise nothing changes |
| BackgroundTextures.BackgroundTextureService.AddTexture | dsa-table-backend/src/main/java/de/byedev/dsatable2/dsa_table_backend/service/BackgroundTextureService.java:66-82 | a new texture gets the next id in both maps and the info loaded from its file, or default info when loading fails |
| BackgroundTextures.BackgroundTextureService.RegisterKnownTextures | dsa-table-backend/src/main/java/de/byedev/dsatable2/dsa_table_backend/service/BackgroundTextureService.java:52-88 | every known texture is tried in list order; the registry stays dense and the maps stay inverse |
| BackgroundTextures.BackgroundTextureService.LookupValid | dsa-table-backend/src/main/java/de/byedev/dsatable2/dsa_table_backend/service/BackgroundTextureService.java:69-70 | registration leaves the ids dense from 0 and the two maps inverse to each other (also lines 116-132) |
| BackgroundTextures.GetTextureName | dsa-table-backend/src/main/java/de/byedev/dsatable2/dsa_table_backend/service/BackgroundTextureService.java:116-118 | the name of an unregistered id is "earth" |
| BackgroundTextures.GetAllTextures | dsa-table-backend/src/main/java/de/byedev/dsatable2/dsa_table_backend/service/BackgroundTextureService.java:137-156 | one entry per registered id, ascending by id, with default info made from the name when none was loaded |
| BackgroundTextures.GetTextureSvg | dsa-table-backend/src/main/java/de/byedev/dsatable2/dsa_table_backend/service/BackgroundTextureService.java:175-186 | "default" has no texture body |
| BackgroundTextures.GetFilterId | dsa-table-backend/src/main/java/de/byedev/dsatable2/dsa_table_backend/service/BackgroundTextureService.java:191-197 | the filter id is "" exactly for "default" and `#name-filter` otherwise |
| BackgroundTextures.LookupRoundTrip | dsa-table-backend/src/main/java/de/byedev/dsatable2/dsa_table_backend/service/BackgroundTextureService.java:116-132 | a name looked up by id is found again by name and the other way round; an unregistered id reads "earth" |
| BackgroundTextures.NextIdIsCount | dsa-table-backend/src/main/java/de/byedev/dsatable2/dsa_table_backend/service/BackgroundTextureService.java:66-67 | with dense ids, one past the largest id is the number of registered names |
| BackgroundTextures.InverseMaps | dsa-table-backend/src/main/java/de/byedev/dsatable2/dsa_table_backend/service/BackgroundTextureService.java:69-70 | the id-to-name and name-to-id maps are mutual inverses |
| BackgroundTextures.RegisterMaps | dsa-table-backend/src/main/java/de/byedev/dsatable2/dsa_table_backend/service/BackgroundTextureService.java:69-70 | registering a new name extends both maps with the next id and keeps the names distinct |
| BackgroundTextures.PresentAreRegistered | dsa-table-backend/src/main/java/de/byedev/dsatable2/dsa_table_backend/service/BackgroundTextureService.java:52-88 | after registration every known texture whose file exists is registered |
| BackgroundTextures.RegisteredUnchanged | dsa-table-backend/src/main/java/de/byedev/dsatable2/dsa_table_backend/service/BackgroundTextureService.java:59-63 | when every present known texture is already registered, registration changes nothing |
| BackgroundTextures.SecondRegistrationIsNoOp | dsa-table-backend/src/main/java/de/byedev/dsatable2/dsa_table_backend/service/BackgroundTextureService.java:40-63 | running registration a second time leaves both maps unchanged |
| BackgroundTextures.RegisteredFromEmpty | dsa-table-backend/src/main/java/de/byedev/dsatable2/dsa_table_backend/service/BackgroundTextureService.java:52-88 | from an empty registry the ids go to the present known textures consecutively from 0, in list order |
| BackgroundTextures.FreshRegistry | dsa-table-backend/src/main/java/de/byedev/dsatable2/dsa_table_backend/service/BackgroundTextureService.java:30-54 | a fresh service registered once numbers the present known textures 0, 1, ... in list order |
| Fog.CellKeyRoundTrip | dsa-table-frontend/src/app/services/fog-of-war.service.ts:73-80 | parsing the key `x,y` of a cell gives back that cell |
| Fog.CellKeyInjective | dsa-table-frontend/src/app/services/fog-of-war.service.ts:73-75 | two cells share a key only when they are the same cell |
| Fog.SetAdd | dsa-table-frontend/src/app/services/fog-of-war.service.ts:22 | `Set.add` holds the old elements and the new one, which goes last in iteration order (also line 69) |
| Fog.SetDelete | dsa-table-frontend/src/app/services/fog-of-war.service.ts:67 | `Set.delete` removes the element and keeps the others in order |
| Fog.RevealedByListsAreas | dsa-table-frontend/src/app/services/fog-of-war.service.ts:18-24 | after `setFogAreas(areas)` each cell is held once, and a cell is revealed exactly when `areas` lists it |
| Fog.FogAreasRoundTrip | dsa-table-frontend/src/app/services/fog-of-war.service.ts:18-33 | setting the areas that were read restores the same revealed set in the same order |
| Fog.PaintKeepsValid | dsa-table-frontend/src/app/services/fog-of-war.service.ts:57-71 | painting keeps each cell at most once in the set |
| Fog.PaintIgnoredBetweenStrokes | dsa-table-frontend/src/app/services/fog-of-war.service.ts:57-58 | `paintCell` does nothing when no stroke is in progress |
| Fog.PaintTwiceIsPaintOnce | dsa-table-frontend/src/app/services/fog-of-war.service.ts:60-64 | painting the same cell twice in a row has no effect the second time |
| Fog.PaintChangesOneCell | dsa-table-frontend/src/app/services/fog-of-war.service.ts:66-70 | in 'add' mode the cell is hidden afterwards and in 'remove' mode revealed; no other cell changes |
| Fog.NewStrokePaintsFirstCell | dsa-table-frontend/src/app/services/fog-of-war.service.ts:47-55 | starting or stopping a stroke forgets the last painted cell, so a new stroke always paints its first cell |
| Fog.FogOfWarService.constructor | dsa-table-frontend/src/app/services/fog-of-war.service.ts:13-16 | a new service reveals nothing, is in 'add' mode, is not painting and has no last cell |
| Fog.FogOfWarService.SetFogAreas | dsa-table-frontend/src/app/services/fog-of-war.service.ts:18-24 | the revealed set becomes exactly the listed cells and nothing else changes |
| Fog.FogOfWarService.GetFogAreas | dsa-table-frontend/src/app/services/fog-of-war.service.ts:26-33 | one area per revealed cell, in the set's order, each read back from its key |
| Fog.FogOfWarService.ReadKey | dsa-table-frontend/src/app/services/fog-of-war.service.ts:29 | the area parsed from a cell's key is that cell (also lines 77-80) |
| Fog.FogOfWarService.SetFogMode | dsa-table-frontend/src/app/services/fog-of-war.service.ts:43-45 | only the mode changes |
| Fog.FogOfWarService.StartPainting | dsa-table-frontend/src/app/services/fog-of-war.service.ts:47-50 | painting starts and the last painted cell is reset |
| Fog.FogOfWarService.StopPainting | dsa-table-frontend/src/app/services/fog-of-war.service.ts:52-55 | painting stops and the last painted cell is reset |
| Fog.FogOfWarService.PaintCell | dsa-table-frontend/src/app/services/fog-of-war.service.ts:57-71 | the service state after `paintCell` is the painting specification applied to the old state |
| PropertyNames.Ordinal | dsa-table-backend/src/main/java/de/byedev/dsatable2/dsa_table_backend/model/PropertyName.java:8-27 | every constant sits at its position in the declaration order of `values()` |
| PropertyNames.NotFoundAnywhere | dsa-table-backend/src/main/java/de/byedev/dsatable2/dsa_table_backend/model/PropertyName.java:50-60 | a stream search through all of `values()` that finds nothing means no constant matches |
| PropertyNames.FindFrom | dsa-table-backend/src/main/java/de/byedev/dsatable2/dsa_table_backend/model/PropertyName.java:50-60 | the search result matches the key ignoring case, and no earlier constant does |
| PropertyNames.GetByName | dsa-table-backend/src/main/java/de/byedev/dsatable2/dsa_table_backend/model/PropertyName.java:50-54 | `getByName` returns a constant whose name equals the input ignoring case, and an empty Optional only when none does |
| PropertyNames.GetByAbrv | dsa-table-backend/src/main/java/de/byedev/dsatable2/dsa_table_backend/model/PropertyName.java:56-60 | `getByAbrv` returns a constant whose abbreviation equals the input ignoring case, and an empty Optional only when none does |
| PropertyNames.AbrvsDistinct | dsa-table-backend/src/main/java/de/byedev/dsatable2/dsa_table_backend/model/PropertyName.java:8-27 | no two abbreviations are equal ignoring case |
| PropertyNames.NamesDistinct | dsa-table-backend/src/main/java/de/byedev/dsatable2/dsa_table_backend/model/PropertyName.java:8-27 | no two names are equal ignoring case |
| PropertyNames.GetByAbrvFindsOwner | dsa-table-backend/src/main/java/de/byedev/dsatable2/dsa_table_backend/model/PropertyName.java:56-60 | every constant is found by its own abbreviation in any capitalisation, so `findAny` has no choice to make |
| PropertyNames.GetByNameFindsOwner | dsa-table-backend/src/main/java/de/byedev/dsatable2/dsa_table_backend/model/PropertyName.java:50-54 | every constant is found by its own name in any capitalisation |
| PropertyNames.DashesAreNone | dsa-table-backend/src/main/java/de/byedev/dsatable2/dsa_table_backend/model/PropertyName.java:26 | `getByAbrv("--")` is `NONE` (also lines 56-60) |
| Abilities.StripParens | dsa-table-backend/src/main/java/de/byedev/dsatable2/dsa_table_backend/model/Ability.java:167-170 | one surrounding pair of parentheses is stripped, and only when both are present |
| Abilities.ParseCheckString | dsa-table-backend/src/main/java/de/byedev/dsatable2/dsa_table_backend/model/Ability.java:163-176 | always exactly three strings; three dashes for a missing or blank check or when the split does not give exactly three pieces |
| Abilities.SplitInThree | dsa-table-backend/src/main/java/de/byedev/dsatable2/dsa_table_backend/model/Ability.java:171-175 | the pieces between slashes when there are exactly three, three dashes otherwise |
| Abilities.MissingCheckNamesNone | dsa-table-backend/src/main/java/de/byedev/dsatable2/dsa_table_backend/model/Ability.java:60-67 | a missing or blank check resolves to `NONE` three times (also lines 163-166) |
| Abilities.TrimmedCheck | dsa-table-backend/src/main/java/de/byedev/dsatable2/dsa_table_backend/model/Ability.java:167-175 | a trimmed, non-blank check without a surrounding pair of parentheses is split as it is |
| Abilities.ParenthesesIgnored | dsa-table-backend/src/main/java/de/byedev/dsatable2/dsa_table_backend/model/Ability.java:167-170 | `"(MU/IN/GE)"` parses like `"MU/IN/GE"` |
| Abilities.ThreePartCheck | dsa-table-backend/src/main/java/de/byedev/dsatable2/dsa_table_backend/model/Ability.java:171-175 | a check of three pieces between slashes comes back as its pieces, untrimmed: `"MU / IN / GE"` gives `"MU "`, `" IN "` and `" GE"` |
| Abilities.ParenIsNoAbrv | dsa-table-backend/src/main/java/de/byedev/dsatable2/dsa_table_backend/model/Ability.java:63-65 | a piece starting with a parenthesis resolves to `NONE` |
| Abilities.UnpairedParenthesisKept | dsa-table-backend/src/main/java/de/byedev/dsatable2/dsa_table_backend/model/Ability.java:168-171 | without its closing parenthesis the opening one stays with the first piece |
| Abilities.BeRuleFrom | dsa-table-backend/src/main/java/de/byedev/dsatable2/dsa_table_backend/model/Ability.java:125-161 | "be" in any case is the identity; a handicap with an `x` multiplies (2 when the number is unreadable), checked before `-`; one with `-` subtracts (default 2); anything else, empty or missing is 0 |
| Abilities.CorrectionKeepsLowerCase | dsa-table-backend/src/main/java/de/byedev/dsatable2/dsa_table_backend/model/Ability.java:131-134 | for a handicap written without capitals the corrected reading equals the reading as written |
| Abilities.CorrectionOnlyTouchesTimes | dsa-table-backend/src/main/java/de/byedev/dsatable2/dsa_table_backend/model/Ability.java:125-161 | the correction changes only the multiplier: both readings pick the same kind of rule, and the same rule unless it multiplies |
| Abilities.MissingHandicapIsZero | dsa-table-backend/src/main/java/de/byedev/dsatable2/dsa_table_backend/model/Ability.java:127 | no handicap, or an empty one, gives a BE of 0 (also lines 156-158) |
| Abilities.MinusRuleBounds | dsa-table-backend/src/main/java/de/byedev/dsatable2/dsa_table_backend/model/Ability.java:146-152 | a reduced BE is `max(b - n, 0)`: never negative and never above the BE it starts from |
| Abilities.TimesRule | dsa-table-backend/src/main/java/de/byedev/dsatable2/dsa_table_backend/model/Ability.java:131-138 | a handicap with an `x`, other than "be", multiplies by the number after the `x` |
| Abilities.MultiplierIsRead | dsa-table-backend/src/main/java/de/byedev/dsatable2/dsa_table_backend/model/Ability.java:131-138 | with the correction, the multiplier after the `x` counts whichever case the `x` has |
| Abilities.TimesRuleAsWritten | dsa-table-backend/src/main/java/de/byedev/dsatable2/dsa_table_backend/model/Ability.java:131-138 | as written, a handicap with a lower-case `x` multiplies by the number after it |
| Abilities.CapitalXLosesMultiplier | dsa-table-backend/src/main/java/de/byedev/dsatable2/dsa_table_backend/model/Ability.java:128-134 | as written, `"BEX3"` passes the lower-cased `x` test but splits the original text at `x`, so it multiplies by the default 2 |
| Abilities.LowerXKeepsMultiplier | dsa-table-backend/src/main/java/de/byedev/dsatable2/dsa_table_backend/model/Ability.java:131-138 | as written, `"BEx3"` multiplies by 3 |
| Abilities.CapitalXMultiplierRead | dsa-table-backend/src/main/java/de/byedev/dsatable2/dsa_table_backend/model/Ability.java:131-138 | with the correction, `"BEX3"` multiplies by 3 |
| Abilities.Ability.constructor | dsa-table-backend/src/main/java/de/byedev/dsatable2/dsa_table_backend/model/Ability.java:59-67 | the constructor resolves the three parts of the parsed check through `getByAbrv`, falling back to `NONE` |
| Abilities.Ability.SetCheck | dsa-table-backend/src/main/java/de/byedev/dsatable2/dsa_table_backend/model/Ability.java:82-88 | `setCheck` stores the check and re-resolves the three properties; nothing else changes |
| Abilities.Ability.SetHandicap | dsa-table-backend/src/main/java/de/byedev/dsatable2/dsa_table_backend/model/Ability.java:107-110 | `setHandicap` stores the handicap and clears the cached BE rule |
| Abilities.Ability.GetProp | dsa-table-backend/src/main/java/de/byedev/dsatable2/dsa_table_backend/model/Ability.java:113-120 | `getProp(n)` is the n-th checked property for n in 0..2 and null otherwise |
| Abilities.Ability.GetBe | dsa-table-backend/src/main/java/de/byedev/dsatable2/dsa_table_backend/model/Ability.java:125-161 | `getBe` returns the rule of the current handicap and caches it; nothing else changes |
| Characters.FirstIndex | dsa-table-backend/src/main/java/de/byedev/dsatable2/dsa_table_backend/model/Character.java:543-547 | the property `findAny` returns on the list's sequential stream is the first one with that name |
| Characters.PropertyValueMeans | dsa-table-backend/src/main/java/de/byedev/dsatable2/dsa_table_backend/model/Character.java:549-551 | `getPropertyValue` reads the first entry of that name, and an absent property counts as 0 |
| Characters.PropertyValueOfAppend | dsa-table-backend/src/main/java/de/byedev/dsatable2/dsa_table_backend/model/Character.java:326-334 | a property appended at the end changes neither the value of a name already present nor that of another name (also lines 549-551) |
| Characters.PropertyValueOfUpdate | dsa-table-backend/src/main/java/de/byedev/dsatable2/dsa_table_backend/model/Character.java:549-551 | changing the value of one entry keeps every value looked up under another name (also line 634) |
| Characters.RoundHalf | dsa-table-backend/src/main/java/de/byedev/dsatable2/dsa_table_backend/model/Character.java:556 | `Math.round(x / 2.0f)` is the nearest integer to x/2, halves rounded up |
| Characters.RoundFifth | dsa-table-backend/src/main/java/de/byedev/dsatable2/dsa_table_backend/model/Character.java:561-563 | `Math.round(x / 5.0f)` is the nearest integer to x/5 |
| Characters.TotalLife | dsa-table-backend/src/main/java/de/byedev/dsatable2/dsa_table_backend/model/Character.java:554-557 | total life is LeP plus `(2·KO + KK)/2` rounded half up |
| Characters.MagicResistance | dsa-table-backend/src/main/java/de/byedev/dsatable2/dsa_table_backend/model/Character.java:559-564 | magic resistance is MR plus `(MU + KL + KO)/5` rounded |
| Characters.TotalMagicEnergy | dsa-table-backend/src/main/java/de/byedev/dsatable2/dsa_table_backend/model/Character.java:566-584 | 0 when ASP is absent or 0; otherwise ASP plus `(MU + IN + CH)/2` rounded, with CH counted twice for the speciality "Gefäß der Sterne" |
| Characters.TotalEndurance | dsa-table-backend/src/main/java/de/byedev/dsatable2/dsa_table_backend/model/Character.java:596-601 | endurance is AuP plus `(MU + KO + GE)/2` rounded |
| Characters.PrimaryProperty | dsa-table-backend/src/main/java/de/byedev/dsatable2/dsa_table_backend/model/Character.java:586-594 | INTUITION iff the race mentions "elf" (checked first), else CHARISMA iff the profession mentions "hex", else WISDOM |
| Characters.FindTalent | dsa-table-backend/src/main/java/de/byedev/dsatable2/dsa_table_backend/model/Character.java:626-629 | the talent found is one whose name equals the given name ignoring case, and there is none only when no talent has that name |
| Characters.SpecialityBonus | dsa-table-backend/src/main/java/de/byedev/dsatable2/dsa_table_backend/model/Character.java:617-625 | each Ausweichen speciality adds 3 or nothing |
| Characters.AthleticsBonus | dsa-table-backend/src/main/java/de/byedev/dsatable2/dsa_table_backend/model/Character.java:626-632 | Athletik above 9 adds `(value - 9)/3` rounded down, and nothing otherwise |
| Characters.DodgeBonus | dsa-table-backend/src/main/java/de/byedev/dsatable2/dsa_table_backend/model/Character.java:616-633 | the dodge bonus is 3 for each of Ausweichen I, II and III plus the Athletik bonus, never negative |
| Characters.WithDodge | dsa-table-backend/src/main/java/de/byedev/dsatable2/dsa_table_backend/model/Character.java:612-614 | afterwards a DODGE entry exists; one with value 0 is appended only when there was none |
| Characters.RangedEntry | dsa-table-backend/src/main/java/de/byedev/dsatable2/dsa_table_backend/model/Character.java:641-657 | a ranged combat talent is appended only when the hero has the matching talent, valued FK plus the talent value with PA |
| Characters.DodgeKeepsOtherValues | dsa-table-backend/src/main/java/de/byedev/dsatable2/dsa_table_backend/model/Character.java:612-634 | adding and setting the DODGE entry leaves every other property value alone |
| Characters.SetDodgeToItsValue | dsa-table-backend/src/main/java/de/byedev/dsatable2/dsa_table_backend/model/Character.java:634 | setting the DODGE entry to the value it has changes nothing |
| Characters.DodgeStage | dsa-table-backend/src/main/java/de/byedev/dsatable2/dsa_table_backend/model/Character.java:612-634 | after the first stage the hero has a DODGE entry valued PA plus the dodge bonus |
| Characters.DodgeStageKeepsOthers | dsa-table-backend/src/main/java/de/byedev/dsatable2/dsa_table_backend/model/Character.java:612-634 | the first stage leaves every property value other than DODGE as it was |
| Characters.DodgeStageSettles | dsa-table-backend/src/main/java/de/byedev/dsatable2/dsa_table_backend/model/Character.java:612-634 | the dodge stage is idempotent |
| Characters.SettledProperties | dsa-table-backend/src/main/java/de/byedev/dsatable2/dsa_table_backend/model/Character.java:612-634 | a property list whose DODGE value is already PA plus the bonus is left as it is |
| Characters.UpdatedDodge | dsa-table-backend/src/main/java/de/byedev/dsatable2/dsa_table_backend/model/Character.java:611-658 | after `updateCalculated` DODGE is PA plus the bonus, every other property value is unchanged, and so are the talents and specialities |
| Characters.UpdatedBaseTalent | dsa-table-backend/src/main/java/de/byedev/dsatable2/dsa_table_backend/model/Character.java:636-639 | afterwards a "Basis" combat talent exists, and the combat talents there before keep their places |
| Characters.BaseTalentAdded | dsa-table-backend/src/main/java/de/byedev/dsatable2/dsa_table_backend/model/Character.java:636-639 | the "Basis" stage leaves a "Basis" combat talent behind and keeps the earlier ones in place |
| Characters.BaseTalentNotRepeated | dsa-table-backend/src/main/java/de/byedev/dsatable2/dsa_table_backend/model/Character.java:636-657 | a hero that already has a "Basis" combat talent gets only the ranged entries appended |
| Characters.UpdateTwiceRepeatsRanged | dsa-table-backend/src/main/java/de/byedev/dsatable2/dsa_table_backend/model/Character.java:641-657 | `updateCalculated` is not idempotent: a second call keeps the properties but appends the ranged combat talents once more |
| Characters.Character.constructor | dsa-table-backend/src/main/java/de/byedev/dsatable2/dsa_table_backend/model/Character.java:138-139 | a new character has empty lists (the field initialisers are at lines 106-131) |
| Characters.Character.SetProperties | dsa-table-backend/src/main/java/de/byedev/dsatable2/dsa_table_backend/model/Character.java:314-324 | `setProperties` replaces the whole list, and null leaves it empty |
| Characters.Character.AddProperty | dsa-table-backend/src/main/java/de/byedev/dsatable2/dsa_table_backend/model/Character.java:326-334 | `addProperty` appends the property, and null is a no-op |
| Characters.Character.AddCombatTalent | dsa-table-backend/src/main/java/de/byedev/dsatable2/dsa_table_backend/model/Character.java:458-466 | `addCombatTalent` appends the combat talent, and null is a no-op |
| Characters.Character.UpdateCalculated | dsa-table-backend/src/main/java/de/byedev/dsatable2/dsa_table_backend/model/Character.java:611-658 | the character after `updateCalculated` is the update specification applied to the old state |
| Characters.Character.UpdateDodge | dsa-table-backend/src/main/java/de/byedev/dsatable2/dsa_table_backend/model/Character.java:612-634 | the dodge part adds DODGE when it is missing, then sets it to PA plus the bonus |
| Characters.Character.DodgeBonusOf | dsa-table-backend/src/main/java/de/byedev/dsatable2/dsa_table_backend/model/Character.java:616-633 | the bonus loop computes exactly the dodge bonus |
| Characters.Character.AddRanged | dsa-table-backend/src/main/java/de/byedev/dsatable2/dsa_table_backend/model/Character.java:641-657 | one ranged step appends the entry for the first matching talent, if there is one, and changes nothing else |
| Rolls.JsRem | dsa-table-frontend/src/app/utils/dsa-rolls.util.ts:97 | JavaScript's `%` takes the sign of the dividend and is in [0, b) for a non-negative dividend |
| Rolls.BeIsSharedOut | dsa-table-frontend/src/app/utils/dsa-rolls.util.ts:30-32 | wearing armour, a non-negative BE is shared out: the attack bears `floor(be/2)` and the parry the rest, and the two parts sum to the BE (also lines 96-98) |
| Rolls.NoArmourNoBe | dsa-table-frontend/src/app/utils/dsa-rolls.util.ts:30-33 | without armour no BE counts, and wounds add two each to attack and parry alike (also lines 96-99) |
| Rolls.DiceCount | dsa-table-frontend/src/app/utils/dsa-rolls.util.ts:38 | the number of damage dice is `numberOfDice` when positive and 1 otherwise |
| Rolls.SumRollsBounds | dsa-table-frontend/src/app/utils/dsa-rolls.util.ts:39-41 | with every die between 1 and 6, n dice sum to between n and 6n |
| Rolls.Damage | dsa-table-frontend/src/app/utils/dsa-rolls.util.ts:24 | damage is doubled exactly when the attack roll is 1 and the confirmation roll is at most the value (also lines 37-55) |
| Rolls.TwentyAlwaysMisses | dsa-table-frontend/src/app/utils/dsa-rolls.util.ts:82 | an attack hits iff `atRoll <= value` and `atRoll != 20`, so a 20 always misses |
| Rolls.CriticalNote | dsa-table-frontend/src/app/utils/dsa-rolls.util.ts:47-56 | a critical note is written exactly when the attack roll is 1 |
| Rolls.FumbleNote | dsa-table-frontend/src/app/utils/dsa-rolls.util.ts:58-66 | a fumble note is written exactly when the attack roll is 20 |
| Rolls.ModifierText | dsa-table-frontend/src/app/utils/dsa-rolls.util.ts:71-74 | the modifier is printed exactly when it is not 0 |
| Rolls.AttackResultTellsHit | dsa-table-frontend/src/app/utils/dsa-rolls.util.ts:82-91 | a hit ends its line in "Schaden" and a miss does not |
| Rolls.ParryResultTellsSuccess | dsa-table-frontend/src/app/utils/dsa-rolls.util.ts:106-108 | a parry succeeds iff `paRoll <= value`, and its two results differ in their first character |
| Rolls.AttackMessageEndsInResult | dsa-table-frontend/src/app/utils/dsa-rolls.util.ts:68-93 | the text after the fixed head of the line is the result, so the line says whether the attack hit |
| Rolls.RollAttackOrParry | dsa-table-frontend/src/app/utils/dsa-rolls.util.ts:14-110 | `rollAttackOrParry` with the dice as inputs returns the attack message for an attack and the parry message otherwise |
| Rolls.RollAttack | dsa-table-frontend/src/app/utils/dsa-rolls.util.ts:28-93 | the attack branch computes the modifier, sums the damage dice one by one, and returns the attack message |
| Rolls.RollParry | dsa-table-frontend/src/app/utils/dsa-rolls.util.ts:94-109 | the parry branch returns the parry message |
| TalentChecks.StripParentheses | dsa-table-frontend/src/app/components/game-session-detail/game-session-detail.component.ts:644 | `replace(/[()]/g, '')` leaves no parenthesis |
| TalentChecks.TrimEach | dsa-table-frontend/src/app/components/game-session-detail/game-session-detail.component.ts:645 | `.map(p => p.trim())` keeps the number of pieces and trims each |
| TalentChecks.CheckParts | dsa-table-frontend/src/app/components/game-session-detail/game-session-detail.component.ts:643-645 | a check always yields at least one part |
| TalentChecks.SplitCount | dsa-table-frontend/src/app/components/game-session-detail/game-session-detail.component.ts:645 | `split('/')` gives one piece more than there are slashes |
| TalentChecks.ThreePartsIffTwoSlashes | dsa-table-frontend/src/app/components/game-session-detail/game-session-detail.component.ts:643-648 | a check names three properties exactly when it holds two slashes; parentheses and white space do not count |
| TalentChecks.MissingCheckIsOnePart | dsa-table-frontend/src/app/components/game-session-detail/game-session-detail.component.ts:643-648 | a talent without a check string yields one empty part and so is reported as malformed |
| TalentChecks.PossibleNames | dsa-table-frontend/src/app/components/game-session-detail/game-session-detail.component.ts:665-685 | the candidate names looked up for a key (its `propertyMap` entry, or the key alone) always contain the key itself |
| TalentChecks.FirstMatch | dsa-table-frontend/src/app/components/game-session-detail/game-session-detail.component.ts:687-694 | `find` returns the first property whose upper-cased name equals, starts with or contains one of the possible names |
| TalentChecks.FirstExact | dsa-table-frontend/src/app/components/game-session-detail/game-session-detail.component.ts:687-694 | the corrected lookup first takes the first property named exactly by one of the possible names |
| TalentChecks.ExactIsAMatch | dsa-table-frontend/src/app/components/game-session-detail/game-session-detail.component.ts:689-693 | an exact name always passes the loose test, so the correction only reorders the same candidates |
| TalentChecks.CorrectedReadsExactName | dsa-table-frontend/src/app/components/game-session-detail/game-session-detail.component.ts:683-696 | the corrected lookup reads the first property named exactly, when there is one |
| TalentChecks.CorrectedAgreesWithoutExactName | dsa-table-frontend/src/app/components/game-session-detail/game-session-detail.component.ts:683-696 | where no property is named exactly, the corrected and the as-written lookups agree |
| TalentChecks.DexterityMatchesAgility | dsa-table-frontend/src/app/components/game-session-detail/game-session-detail.component.ts:671-693 | "Fingerfertigkeit" passes the loose test for `GE`, because its upper-case form contains "GE" |
| TalentChecks.DexterityIsNotAgility | dsa-table-frontend/src/app/components/game-session-detail/game-session-detail.component.ts:671 | "Fingerfertigkeit" is none of Gewandtheit's names exactly |
| TalentChecks.AgilityReadsDexterity | dsa-table-frontend/src/app/components/game-session-detail/game-session-detail.component.ts:683-696 | as written, a `GE` check on properties listing Fingerfertigkeit before Gewandtheit reads the Fingerfertigkeit value |
| TalentChecks.AgilityReadsAgility | dsa-table-frontend/src/app/components/game-session-detail/game-session-detail.component.ts:683-696 | the corrected lookup reads Gewandtheit for the same character |
| TalentChecks.Diff | dsa-table-frontend/src/app/components/game-session-detail/game-session-detail.component.ts:711 | `diff` is positive iff `totalMod < 0`, and then equals `-totalMod` |
| TalentChecks.Cost | dsa-table-frontend/src/app/components/game-session-detail/game-session-detail.component.ts:725-731 | a roll costs `min(prop - diff - roll, 0)` points, never a gain |
| TalentChecks.TalentResult | dsa-table-frontend/src/app/components/game-session-detail/game-session-detail.component.ts:701-736 | the result is `max(totalMod, 0)` plus the costs of the three rolls, capped at the talent value |
| TalentChecks.RollsWithinKeepPoints | dsa-table-frontend/src/app/components/game-session-detail/game-session-detail.component.ts:705-736 | rolls that all stay within their property less `diff` leave the starting points, capped at the value |
| TalentChecks.HigherRollNoBetter | dsa-table-frontend/src/app/components/game-session-detail/game-session-detail.component.ts:725-736 | a higher roll never improves the result |
| TalentChecks.HigherPropertyNoWorse | dsa-table-frontend/src/app/components/game-session-detail/game-session-detail.component.ts:725-736 | a higher property value never worsens the result |
| TalentChecks.LargerModifierNoBetter | dsa-table-frontend/src/app/components/game-session-detail/game-session-detail.component.ts:701-736 | a larger modifier never improves the result |
| TalentChecks.ModifierText | dsa-table-frontend/src/app/components/game-session-detail/game-session-detail.component.ts:745 | the modifier is printed exactly when it is not 0, with a `+` for a positive one |
| TalentChecks.FindTalent | dsa-table-frontend/src/app/components/game-session-detail/game-session-detail.component.ts:627-632 | the talent found is the first whose id equals the selected id |
| TalentChecks.CheckValues | dsa-table-frontend/src/app/components/game-session-detail/game-session-detail.component.ts:718-720 | a well-formed check reads three property values, through the corrected lookup of finding 4 |
| TalentChecks.TalentCheck | dsa-table-frontend/src/app/components/game-session-detail/game-session-detail.component.ts:601-624 | a message is sent exactly when the session, the chat, the character and a selected talent are all present |
| TalentChecks.UnknownTalentReported | dsa-table-frontend/src/app/components/game-session-detail/game-session-detail.component.ts:634-640 | a talent the character does not have is reported by its id |
| TalentChecks.MalformedCheckReported | dsa-table-frontend/src/app/components/game-session-detail/game-session-detail.component.ts:648-654 | a check that does not split into three properties is reported with its part count, and nothing is rolled |
| TalentChecks.MissingPropertiesReported | dsa-table-frontend/src/app/components/game-session-detail/game-session-detail.component.ts:656-662 | a character without properties is reported once the check is well formed |
| TalentChecks.RollReported | dsa-table-frontend/src/app/components/game-session-detail/game-session-detail.component.ts:698-747 | with a well-formed check and loaded properties the three rolls are reported with the modifier and the result, property values read through the corrected lookup of finding 4 |
| TalentChecks.ComputeResult | dsa-table-frontend/src/app/components/game-session-detail/game-session-detail.component.ts:701-736 | the step-by-step arithmetic of `rollTalentCheck` equals the result specification |
| TalentChecks.TalentRoll | dsa-table-frontend/src/app/components/game-session-detail/game-session-detail.component.ts:683-747 | a talent roll with a well-formed check reads the three property values through the corrected lookup of finding 4, computes the result and formats the message |
| TalentChecks.GameSessionDetail.SelectTalent | dsa-table-frontend/src/app/components/game-session-detail/game-session-detail.component.ts:479-483 | `selectTalent` sets the selected id and changes nothing else in the model |
| TalentChecks.GameSessionDetail.RollTalentCheck | dsa-table-frontend/src/app/components/game-session-detail/game-session-detail.component.ts:601-766 | when a message is due it is sent and the selection is cleared (also after an error report); otherwise nothing changes |
| BattlemapImage.Substitute | dsa-table-backend/src/main/java/de/byedev/dsatable2/dsa_table_backend/web/BattlemapImageController.java:78 | `replace(char, char)` keeps the length and turns every `c` into `d` |
| BattlemapImage.PaddingNeeded | dsa-table-backend/src/main/java/de/byedev/dsatable2/dsa_table_backend/web/BattlemapImageController.java:82 | `(4 - len % 4) % 4` is below 4 and makes the length a multiple of 4 |
| BattlemapImage.NormalizeBase64 | dsa-table-backend/src/main/java/de/byedev/dsatable2/dsa_table_backend/web/BattlemapImageController.java:74-85 | `-` and `_` become `+` and `/` when either occurs, then `=` pads the text to a length that is a multiple of 4 |
| BattlemapImage.NormalizedIsStandard | dsa-table-backend/src/main/java/de/byedev/dsatable2/dsa_table_backend/web/BattlemapImageController.java:77-79 | no `-` and no `_` is left after normalisation |
| BattlemapImage.StandardPassesThrough | dsa-table-backend/src/main/java/de/byedev/dsatable2/dsa_table_backend/web/BattlemapImageController.java:74-85 | standard, padded text passes through unchanged |
| BattlemapImage.NormalizeIdempotent | dsa-table-backend/src/main/java/de/byedev/dsatable2/dsa_table_backend/web/BattlemapImageController.java:74-85 | normalising twice is normalising once |
| BattlemapImage.InflateToString | dsa-table-backend/src/main/java/de/byedev/dsatable2/dsa_table_backend/web/BattlemapImageController.java:630-642 | no bytes give ""; otherwise gzip, falling back to raw DEFLATE when gzip throws |
| BattlemapImage.FormatByFirstByte | dsa-table-backend/src/main/java/de/byedev/dsatable2/dsa_table_backend/web/BattlemapImageController.java:103-117 | since the gzip branch and the fallback run the same decompression, the choice depends only on the first byte: `{` is read as UTF-8 text, anything else is decompressed |
| BattlemapImage.DecodeRequest | dsa-table-backend/src/main/java/de/byedev/dsatable2/dsa_table_backend/web/BattlemapImageController.java:66-121 | empty data, a decoder failure (prefixed "Invalid base64 encoding: ") and empty decoded bytes each raise an `IllegalArgumentException`; otherwise the JSON is parsed into a request |
| BattlemapImage.CaughtMessage | dsa-table-backend/src/main/java/de/byedev/dsatable2/dsa_table_backend/web/BattlemapImageController.java:138-151 | an `IllegalArgumentException` is shown as "Invalid base64 encoding: " + message; any other exception as "Error processing battlemap data: " + its message or class name |
| BattlemapImage.GenerateBattlemapImage | dsa-table-backend/src/main/java/de/byedev/dsatable2/dsa_table_backend/web/BattlemapImageController.java:61-152 | the endpoint's answer equals the response specification for the given scenery guard |
| BattlemapImage.AlwaysAnSvg | dsa-table-backend/src/main/java/de/byedev/dsatable2/dsa_table_backend/web/BattlemapImageController.java:133-151 | every answer is a 200 `image/svg+xml`; it carries the seven-day cache header exactly when the map was drawn, and is otherwise the error image of the exception caught |
| BattlemapImage.EmptyDataIsReported | dsa-table-backend/src/main/java/de/byedev/dsatable2/dsa_table_backend/web/BattlemapImageController.java:67-68 | an empty parameter is reported through the Base64 catch block (also lines 138-143) |
| BattlemapImage.Base64FailureIsPrefixedTwice | dsa-table-backend/src/main/java/de/byedev/dsatable2/dsa_table_backend/web/BattlemapImageController.java:91-94 | a decoder failure carries "Invalid base64 encoding: " twice, once from the rethrow and once from the catch block (also lines 138-143) |
| BattlemapImage.EmptyBytesAreReported | dsa-table-backend/src/main/java/de/byedev/dsatable2/dsa_table_backend/web/BattlemapImageController.java:97-99 | bytes that decode to nothing are reported through the Base64 catch block too (also lines 138-143) |
| BattlemapImage.FiveByteTailAtEndpoint | dsa-table-backend/src/main/java/de/byedev/dsatable2/dsa_table_backend/web/BattlemapImageController.java:130-150 | with scenery ending in a five-byte record, the endpoint as written answers with the error image of the index overrun, while the corrected guard draws the map |
| SvgText.EscapeXmlIsPerCharacter | dsa-table-backend/src/main/java/de/byedev/dsatable2/dsa_table_backend/web/BattlemapImageController.java:674-683 | since `&` is replaced first, the chained replacements escape each character on its own; no entity one step writes is rewritten by a later step |
| SvgText.EscapeXmlRoundTrip | dsa-table-backend/src/main/java/de/byedev/dsatable2/dsa_table_backend/web/BattlemapImageController.java:674-683 | escaped text reads back as the original |
| SvgText.EscapeXmlHasNoMarkup | dsa-table-backend/src/main/java/de/byedev/dsatable2/dsa_table_backend/web/BattlemapImageController.java:674-683 | no raw `<`, `>`, `"` or `'` survives `escapeXml` |
| SvgText.EscapeXmlAttributeIsPerCharacter | dsa-table-backend/src/main/java/de/byedev/dsatable2/dsa_table_backend/web/BattlemapImageController.java:685-694 | `escapeXmlAttribute` escapes `&`, `'` and `"` each on its own |
| SvgText.EscapeXmlAttributeRoundTrip | dsa-table-backend/src/main/java/de/byedev/dsatable2/dsa_table_backend/web/BattlemapImageController.java:685-694 | an escaped attribute value reads back as the original |
| SvgText.EscapeXmlAttributeQuotes | dsa-table-backend/src/main/java/de/byedev/dsatable2/dsa_table_backend/web/BattlemapImageController.java:685-694 | an escaped value cannot close its quoted attribute, and a value without `&` and quotes is left as it is |
| SvgText.ErrorSvgShowsMessage | dsa-table-backend/src/main/java/de/byedev/dsatable2/dsa_table_backend/web/BattlemapImageController.java:696-704 | the error image shows exactly the message it was made for, and the text between the tags holds no `<` |
| SvgText.ExtractDefsOfWrapped | dsa-table-backend/src/main/java/de/byedev/dsatable2/dsa_table_backend/web/BattlemapImageController.java:365-397 | for a file with a first `<defs` whose attributes hold no `>` and whose content holds no `</defs>`, the result is the trimmed content with the `xmlns` attributes stripped |
| SvgText.SectionOfWrapped | dsa-table-backend/src/main/java/de/byedev/dsatable2/dsa_table_backend/web/BattlemapImageController.java:371-389 | the three searches isolate the text between the opening tag's `>` and the first closing tag after it |
| SvgText.ExtractDefsWithoutDefs | dsa-table-backend/src/main/java/de/byedev/dsatable2/dsa_table_backend/web/BattlemapImageController.java:371-374 | a file without `<defs` contributes nothing |
| SvgText.InsertAfterHeader | dsa-table-backend/src/main/java/de/byedev/dsatable2/dsa_table_backend/web/BattlemapImageController.java:292-298 | the collected `<defs>` block is inserted right after the `<svg ...>` opening tag |
| SvgText.HalfRoundTrip | dsa-table-backend/src/main/java/de/byedev/dsatable2/dsa_table_backend/web/BattlemapImageController.java:610-617 | a coordinate that is a whole number or a half is printed by `append(double)` as text that reads back as the same value |
| SvgText.HalfPrinted | dsa-table-backend/src/main/java/de/byedev/dsatable2/dsa_table_backend/web/BattlemapImageController.java:610-617 | a printed half is its sign, its whole part, a point and one digit |
| SvgText.HalfExamples | dsa-table-backend/src/main/java/de/byedev/dsatable2/dsa_table_backend/web/BattlemapImageController.java:610-611 | 40 prints as "40.0", and halves print with ".5" |
| TokenMarkup.TokenDrawnIffPlaced | dsa-table-backend/src/main/java/de/byedev/dsatable2/dsa_table_backend/web/BattlemapImageController.java:568-571 | a token without both coordinates writes nothing; every other token draws exactly one shape |
| TokenMarkup.ImageIffPicture | dsa-table-backend/src/main/java/de/byedev/dsatable2/dsa_table_backend/web/BattlemapImageController.java:581-606 | a placed token is drawn as an image exactly when it is scenery or its avatar URL is not blank, and as a circle otherwise |
| TokenMarkup.ImageCentredOnToken | dsa-table-backend/src/main/java/de/byedev/dsatable2/dsa_table_backend/web/BattlemapImageController.java:606-613 | the image is a square of the token's size centred at `(x - size/2, y - size/2)`, and its escaped `href` reads back as the URL |
| TokenMarkup.CircleDefaults | dsa-table-backend/src/main/java/de/byedev/dsatable2/dsa_table_backend/web/BattlemapImageController.java:614-625 | a circle is centred on the token with radius 20, filled with the token's colour or `#808080` and outlined with its border colour or `#000000` |
| TokenMarkup.SceneryRecordIsPicture | dsa-table-backend/src/main/java/de/byedev/dsatable2/dsa_table_backend/web/dto/BattlemapImageRequest.java:272-278 | every scenery record is drawn as an image of its own size byte, or of 40 pixels without one (CTL:575-597) |
| TokenMarkup.SizeRule | dsa-table-backend/src/main/java/de/byedev/dsatable2/dsa_table_backend/web/BattlemapImageController.java:575-597 | scenery with a size is drawn at that size; everything else at 40 pixels |
| TokenMarkup.ScenerySizeInUrl | dsa-table-backend/src/main/java/de/byedev/dsatable2/dsa_table_backend/web/BattlemapImageController.java:585-593 | the size printed in the scenery URL reads back as the size |
| TokenMarkup.ImageMarkupText | dsa-table-backend/src/main/java/de/byedev/dsatable2/dsa_table_backend/web/BattlemapImageController.java:610-613 | the image element as the string builder appends it |
| TokenMarkup.CircleMarkupText | dsa-table-backend/src/main/java/de/byedev/dsatable2/dsa_table_backend/web/BattlemapImageController.java:617-624 | the circle element as the string builder appends it |
| TokenMarkup.AttrsRoundTrip | dsa-table-backend/src/main/java/de/byedev/dsatable2/dsa_table_backend/web/BattlemapImageController.java:610-624 | quote-free attributes written as `name='value'` read back as the same list |
| TokenMarkup.ElementRoundTrip | dsa-table-backend/src/main/java/de/byedev/dsatable2/dsa_table_backend/web/BattlemapImageController.java:610-624 | a self-closing element reads back as its tag and attributes |
| TokenMarkup.ShapeRoundTrip | dsa-table-backend/src/main/java/de/byedev/dsatable2/dsa_table_backend/web/BattlemapImageController.java:606-625 | every quote-free shape reads back from its markup |
| TokenMarkup.AddTokenReadsBack | dsa-table-backend/src/main/java/de/byedev/dsatable2/dsa_table_backend/web/BattlemapImageController.java:568-628 | what `addToken` writes is "" exactly without a position, and otherwise reads back as the token's shape whenever the colours a circle copies hold no quote |
| SvgRender.LegacyColor | dsa-table-backend/src/main/java/de/byedev/dsatable2/dsa_table_backend/web/BattlemapImageController.java:721-728 | ids 1, 3 and 4 are light green, dim grey and sandy brown; 0, 2 and every other id are earth brown |
| SvgRender.FirstNamed | dsa-table-backend/src/main/java/de/byedev/dsatable2/dsa_table_backend/web/BattlemapImageController.java:712-715 | the first texture entry with the given name, or none when no entry has it |
| SvgRender.BackgroundColorRule | dsa-table-backend/src/main/java/de/byedev/dsatable2/dsa_table_backend/web/BattlemapImageController.java:709-729 | a registered id takes the colour its texture entry carries; an unregistered id falls back to the legacy table |
| SvgRender.AddPath | dsa-table-backend/src/main/java/de/byedev/dsatable2/dsa_table_backend/web/BattlemapImageController.java:196-199 | `computeIfAbsent(...).append(path)` extends the builder of one key and leaves every other key's builder as it was |
| SvgRender.CellColRowAreDivMod | dsa-table-backend/src/main/java/de/byedev/dsatable2/dsa_table_backend/web/BattlemapImageController.java:178-184 | the loop's `row * gridW + col` is the cell whose column and row are `index % gridW` and `index / gridW` |
| SvgRender.ScanTypeKeys | dsa-table-backend/src/main/java/de/byedev/dsatable2/dsa_table_backend/web/BattlemapImageController.java:186-199 | after the first pass an id has a group exactly when one of its cells has a texture other than `default` and `earth` |
| SvgRender.ScanTypePaths | dsa-table-backend/src/main/java/de/byedev/dsatable2/dsa_table_backend/web/BattlemapImageController.java:178-203 | each id's group holds the outlines of exactly its textured cells, in row-major order |
| SvgRender.ScanNamePaths | dsa-table-backend/src/main/java/de/byedev/dsatable2/dsa_table_backend/web/BattlemapImageController.java:178-203 | each texture name's group holds the outlines of exactly its textured cells, in row-major order |
| SvgRender.ScanNamesCoverTypes | dsa-table-backend/src/main/java/de/byedev/dsatable2/dsa_table_backend/web/BattlemapImageController.java:196-199 | every id that gets a fill has its texture's clip path defined by the name groups (also lines 237-240) |
| SvgRender.ScanBackgrounds | dsa-table-backend/src/main/java/de/byedev/dsatable2/dsa_table_backend/web/BattlemapImageController.java:178-203 | the nested `for` loops compute the first pass over all `gridW * gridH` cells |
| SvgRender.ScanRow | dsa-table-backend/src/main/java/de/byedev/dsatable2/dsa_table_backend/web/BattlemapImageController.java:179-202 | the inner loop adds the cells of one row, left to right |
| SvgRender.ScanCell | dsa-table-backend/src/main/java/de/byedev/dsatable2/dsa_table_backend/web/BattlemapImageController.java:180-200 | one cell either appends a 32-pixel rectangle in its colour (`default`, `earth`) or adds its outline to the groups of its id and of its texture name |
| SvgRender.EmitTextureDefs | dsa-table-backend/src/main/java/de/byedev/dsatable2/dsa_table_backend/web/BattlemapImageController.java:206-234 | each name group contributes its clip path, then the defs of its texture file when the name is registered and the file has a non-empty defs section |
| SvgRender.LoadTextureDefs | dsa-table-backend/src/main/java/de/byedev/dsatable2/dsa_table_backend/web/BattlemapImageController.java:218-232 | a texture's defs are its id's file's defs section; an unknown name or an empty file gives none |
| SvgRender.EmitTextureFills | dsa-table-backend/src/main/java/de/byedev/dsatable2/dsa_table_backend/web/BattlemapImageController.java:237-265 | each id group contributes the drawing elements of its texture file, or a fallback rectangle clipped to its texture's clip path |
| SvgRender.EmitTokens | dsa-table-backend/src/main/java/de/byedev/dsatable2/dsa_table_backend/web/BattlemapImageController.java:307-313 | the token loop appends what `addToken` writes for each token, in list order |
| SvgRender.SixByteGuardNeverOverruns | dsa-table-backend/src/main/java/de/byedev/dsatable2/dsa_table_backend/web/dto/BattlemapImageRequest.java:237-270 | with a six-byte guard the scenery loop never reads past the end of the stream |
| SvgRender.GridSide | dsa-table-backend/src/main/java/de/byedev/dsatable2/dsa_table_backend/web/BattlemapImageController.java:167-168 | a grid side is the request's value when positive, else 16, so it is always positive |
| SvgRender.DrawTerrain | dsa-table-backend/src/main/java/de/byedev/dsatable2/dsa_table_backend/web/BattlemapImageController.java:166-275 | the terrain is the three passes over the cells when the list covers the grid, else one earth rectangle |
| SvgRender.DrawWater | dsa-table-backend/src/main/java/de/byedev/dsatable2/dsa_table_backend/web/BattlemapImageController.java:280-290 | the water layer is drawn only for a non-empty decoded water grid; its blobs cover exactly the water cells and are disjoint |
| SvgRender.DrawMap | dsa-table-backend/src/main/java/de/byedev/dsatable2/dsa_table_backend/web/BattlemapImageController.java:155-303 | everything written before the tokens: header, defs, terrain (decoded with the corrected format choice of finding 1) and water, with the blobs of the water layer |
| SvgRender.AssembleMap | dsa-table-backend/src/main/java/de/byedev/dsatable2/dsa_table_backend/web/BattlemapImageController.java:160-164 | the builder steps put the header, the single defs block, the terrain and the water layer together (also lines 277-303) |
| SvgRender.GenerateSvg | dsa-table-backend/src/main/java/de/byedev/dsatable2/dsa_table_backend/web/BattlemapImageController.java:155-318 | `generateSVG` produces the document specification: the map, the tokens and the closing tag after the DOCTYPE, or the exception the scenery decoder raises |
| SvgRender.AllTokensAgree | dsa-table-backend/src/main/java/de/byedev/dsatable2/dsa_table_backend/web/dto/BattlemapImageRequest.java:196-211 | the tokens drawn are the request's tokens followed by the scenery records, or the read failure |
| SvgRender.HeaderEndsAtFirstAngle | dsa-table-backend/src/main/java/de/byedev/dsatable2/dsa_table_backend/web/BattlemapImageController.java:163-164 | the first `>` of the document is the last character of the `<svg ...>` opening tag (also line 294) |
| SvgRender.ComposeLayout | dsa-table-backend/src/main/java/de/byedev/dsatable2/dsa_table_backend/web/BattlemapImageController.java:292-303 | with at least one definition, the document is the header, one `<defs>` block holding the terrain defs, the water filter and the water mask in that order, then the terrain and the water above it |
| SvgRender.ComposeAfterTag | dsa-table-backend/src/main/java/de/byedev/dsatable2/dsa_table_backend/web/BattlemapImageController.java:292-303 | the same layout for any header whose only `>` ends it |
| SvgRender.MapLayout | dsa-table-backend/src/main/java/de/byedev/dsatable2/dsa_table_backend/web/BattlemapImageController.java:277-303 | since the edge filter is always written, every map carries exactly one defs block right after its header |
| SvgRender.DocumentFailsOnlyOnOverrun | dsa-table-backend/src/main/java/de/byedev/dsatable2/dsa_table_backend/web/BattlemapImageController.java:155-318 | the document fails exactly when the scenery decoder reads past the end of its stream, with the exception that read raises; with a six-byte guard it never fails |
| SvgRender.PlainTerrain | dsa-table-backend/src/main/java/de/byedev/dsatable2/dsa_table_backend/web/BattlemapImageController.java:268-275 | without a full cell list the terrain is one rectangle in the registered earth colour, or `#8B4513` when `earth` is unregistered, and adds no defs |
| SvgRender.TexturedTerrain | dsa-table-backend/src/main/java/de/byedev/dsatable2/dsa_table_backend/web/BattlemapImageController.java:176-265 | with a full cell list, the id groups hold each textured id once and exactly those ids, the name groups hold each name once with the outlines of its cells, and every filled id has its clip path |
| SvgRender.FiveByteSceneryFailsImage | dsa-table-backend/src/main/java/de/byedev/dsatable2/dsa_table_backend/web/dto/BattlemapImageRequest.java:237-250 | a request whose scenery is one bare five-byte header makes the renderer as written fail with an index-out-of-bounds at 5 of 5; with the six-byte guard it draws |
| WaterBlobs.NeighbourGeometry | dsa-table-backend/src/main/java/de/byedev/dsatable2/dsa_table_backend/web/BattlemapImageController.java:877-892 | the cells a fill visits next are in the grid, one column or one row away and never diagonal, and the neighbour relation is symmetric |
| WaterBlobs.ReachPrepend | dsa-table-backend/src/main/java/de/byedev/dsatable2/dsa_table_backend/web/BattlemapImageController.java:881-892 | a water cell reaches whatever its water neighbour reaches |
| WaterBlobs.DiagonalCellsNotConnected | dsa-table-backend/src/main/java/de/byedev/dsatable2/dsa_table_backend/web/BattlemapImageController.java:881-892 | two water cells that touch only at a corner lie in different blobs |
| WaterBlobs.CountShrinks | dsa-table-backend/src/main/java/de/byedev/dsatable2/dsa_table_backend/web/BattlemapImageController.java:874 | marking cells never adds unvisited ones, and marking a new one removes one, so the recursion ends |
| WaterBlobs.FloodFill | dsa-table-backend/src/main/java/de/byedev/dsatable2/dsa_table_backend/web/BattlemapImageController.java:865-893 | from an unvisited water cell, the fill marks and adds exactly the unvisited water cells it reaches and changes no other mark |
| WaterBlobs.FillNeighbour | dsa-table-backend/src/main/java/de/byedev/dsatable2/dsa_table_backend/web/BattlemapImageController.java:881-892 | one of the four neighbour calls keeps the fill on track |
| WaterBlobs.FourNeighboursDone | dsa-table-backend/src/main/java/de/byedev/dsatable2/dsa_table_backend/web/BattlemapImageController.java:881-892 | after the four neighbour calls the start cell is closed: every water neighbour is marked |
| WaterBlobs.AddedIsArea | dsa-table-backend/src/main/java/de/byedev/dsatable2/dsa_table_backend/web/BattlemapImageController.java:849-852 | when every marked cell was closed before a fill from `seed`, the cells the fill adds are exactly the area of `seed` |
| WaterBlobs.SearchStep | dsa-table-backend/src/main/java/de/byedev/dsatable2/dsa_table_backend/web/BattlemapImageController.java:849-855 | a fill from an unvisited water cell adds the area of that cell as a new blob |
| WaterBlobs.StepBlobs | dsa-table-backend/src/main/java/de/byedev/dsatable2/dsa_table_backend/web/BattlemapImageController.java:849-855 | the new blob is disjoint from the earlier ones, and the marked cells are those of all blobs |
| WaterBlobs.FindConnectedWaterBlobs | dsa-table-backend/src/main/java/de/byedev/dsatable2/dsa_table_backend/web/BattlemapImageController.java:844-860 | the blobs are disjoint, together cover exactly the water cells of the grid, and each is the area of 4-connected water around its first cell |
| WaterPaths.CornerCommands | dsa-table-backend/src/main/java/de/byedev/dsatable2/dsa_table_backend/web/BattlemapImageController.java:990-1024 | one corner's piece of the outline: its point, or for a positive radius the point `r` before it and a quarter arc to the point `r` after it |
| WaterPaths.SquareShortcutAgrees | dsa-table-backend/src/main/java/de/byedev/dsatable2/dsa_table_backend/web/BattlemapImageController.java:982-985 | the shortcut for four square corners writes what the corner-by-corner construction writes |
| WaterPaths.RoundedRectPathTracesOutline | dsa-table-backend/src/main/java/de/byedev/dsatable2/dsa_table_backend/web/BattlemapImageController.java:979-1030 | `createRoundedRectPath` traces the clockwise outline from the top-left corner, rounding exactly the corners with a positive radius |
| WaterPaths.OutlineShape | dsa-table-backend/src/main/java/de/byedev/dsatable2/dsa_table_backend/web/BattlemapImageController.java:987-1029 | the outline has one arc per positive radius, and every point it visits lies on the border of the rectangle when no radius exceeds a side |
| WaterPaths.CornerRule | dsa-table-backend/src/main/java/de/byedev/dsatable2/dsa_table_backend/web/BattlemapImageController.java:934-954 | a tile's top-left corner is rounded exactly when the cells above, to the left and above-left lie in the grid outside the blob; likewise for the other three |
| WaterPaths.BorderCornersStaySquare | dsa-table-backend/src/main/java/de/byedev/dsatable2/dsa_table_backend/web/BattlemapImageController.java:934-954 | corners on the border of the grid are never rounded |
| WaterPaths.LoneInteriorTileIsRound | dsa-table-backend/src/main/java/de/byedev/dsatable2/dsa_table_backend/web/BattlemapImageController.java:951-961 | a lone tile away from the border gets all four corners rounded |
| WaterPaths.ElbowInnerCornerStaysSquare | dsa-table-backend/src/main/java/de/byedev/dsatable2/dsa_table_backend/web/BattlemapImageController.java:945-954 | in an L of three tiles the outer corner of the bend is rounded and the inner corner where they meet is square on every tile |
| WaterPaths.BlobCells | dsa-table-backend/src/main/java/de/byedev/dsatable2/dsa_table_backend/web/BattlemapImageController.java:909 | the blob's cells below the bound, in ascending order, each once |
| WaterPaths.BlobCellsAscending | dsa-table-backend/src/main/java/de/byedev/dsatable2/dsa_table_backend/web/BattlemapImageController.java:909 | the cells come in strictly ascending order |
| WaterPaths.CreateBlobPath | dsa-table-backend/src/main/java/de/byedev/dsatable2/dsa_table_backend/web/BattlemapImageController.java:899-973 | the tile paths of the blob's cells in ascending order, separated by single spaces; empty for an empty blob |
| WaterPaths.BlobPathTiles | dsa-table-backend/src/main/java/de/byedev/dsatable2/dsa_table_backend/web/BattlemapImageController.java:909-961 | the tiles drawn are exactly the blob's cells inside the grid, each once |
| WaterPaths.TileCoversCell | dsa-table-backend/src/main/java/de/byedev/dsatable2/dsa_table_backend/web/BattlemapImageController.java:910-931 | a tile covers its 32-pixel cell and sticks out by 5 pixels exactly on the map edges that have water |
| WaterPaths.TilesInsideBounds | dsa-table-backend/src/main/java/de/byedev/dsatable2/dsa_table_backend/web/BattlemapImageController.java:772-780 | when the canvas is the grid at 32 pixels a cell, every tile lies inside the mask bounds (also lines 910-931) |
| WaterPaths.ComputeEdgeFlags | dsa-table-backend/src/main/java/de/byedev/dsatable2/dsa_table_backend/web/BattlemapImageController.java:755-769 | the loop over every cell of every blob records which map edges have water |
| WaterPaths.EdgesOfCover | dsa-table-backend/src/main/java/de/byedev/dsatable2/dsa_table_backend/web/BattlemapImageController.java:755-769 | blobs that cover exactly the water cells see the same map edges as the water grid |
| WaterPaths.CombineBlobPaths | dsa-table-backend/src/main/java/de/byedev/dsatable2/dsa_table_backend/web/BattlemapImageController.java:783-799 | the non-empty blob paths, in blob order, separated by single spaces |
| WaterPaths.RenderWaterLayer | dsa-table-backend/src/main/java/de/byedev/dsatable2/dsa_table_backend/web/BattlemapImageController.java:736-826 | the blobs cover exactly the water cells and are disjoint, and the layer is one mask holding every tile and one filtered rectangle drawn through it, both reaching 5 pixels past each map edge with water |
| WaterPaths.DryGridHasNoLayer | dsa-table-backend/src/main/java/de/byedev/dsatable2/dsa_table_backend/web/BattlemapImageController.java:750-752 | a grid without water cells gives no path and an empty layer (also lines 801-825) |

## Left out

- Base64 (`java.util.Base64`, js-base64), gzip and raw DEFLATE (`GZIPInputStream`, `Inflater`, fflate) and Jackson JSON parsing are foreign libraries. They are function parameters (`Codecs`, `Base64Decoder`). The model covers the decisions around them: normalisation, the format dispatch, the fallback and the error paths.
- `generateSquigglyPath` computes its coordinates with `Math.sin` on doubles. Its outline is an asset function of the cell's pixel box and grid position, so only where it is used is modelled.
- `extractDrawingElementsFromSvg` and `processAttributes` rewrite texture SVGs with regular expressions. They are an asset function from a texture file to its drawing elements.
- `extractDefsFromSvg` strips `xmlns` attributes with two `replaceAll` calls. That rewrite is a parameter (`strip`); the search for the defs section is modelled.
- Texture and water files are loaded through `ClassPathResource` and `SVGUtil.getSvgFromFile`. The file-existence check is a predicate on the texture name, and file contents are opaque strings.
- `createWaterEdgeWiggleFilter` returns fixed filter markup. It is an asset string.
- `HashMap` and `HashSet` iteration order is unspecified in Java. Texture groups are visited in the order of first occurrence, and a blob's cells in ascending order. The properties proved (which groups exist, which cells a blob holds) do not depend on the order.
- SvgRender.EmitTextureDefs: the `loadedTextures` set is kept, but it never suppresses anything, because each texture name has one group.
- The 32-bit overflow of `gridWidth * gridHeight * 32` and of the other `int` products is not modelled. Grid sides are unbounded integers.
- Token coordinates are whole numbers in this model, and `StringBuilder.append(double)` is modelled only for whole numbers and halves (`SvgText.HalfToString`). The source's `x` and `y` are `Double`, so a fractional position is printed with its fraction, and from 10^7 on `Double.toString` switches to scientific notation (`1.0E7`). Neither is modelled; `TokenMarkup` states its properties for whole-number positions only.
- `Math.random` and `randomD`: the dice results are inputs of `Rolls.RollAttackOrParry` and of `TalentChecks.GameSessionDetail.RollTalentCheck`.
- Logging, the Angular UI plumbing and HTTP transport are left out: event handlers, drag and drop, `DOMParser`, `HttpClient`, polling, the map editor page's random map generator, and `getCellFromMouseEvent`/`placeObjectAtPosition`.
- `Character.getLifeRegen` and `Character.getAspRegen` roll dice, and nothing modelled depends on them.
- Text.JavaParseInt: `Integer.parseInt` also accepts non-ASCII Unicode decimal digits (through `Character.digit`), such as Arabic-Indic digits; the model reads ASCII `0`-`9` only.
- Scenery positions and sizes are real numbers in `MapEditorCodec.EnvObject`. JavaScript's `NaN` and infinities (which `Math.round(v) & 0xFFFF` turns into 0) are not modelled.
- The canvas-size conversions `Math.round(canvasWidth / 32)` when a legacy map is loaded (battlemap-editor.component.ts:152-153, map-editor-page.component.ts:230-231) belong to UI loading code that is not part of this model.
- REST controllers, JPA entities and repositories, caching, security, `HeroXMLParser` and the avatar templates are not part of this model.
- Abilities.GetBe: the cached BE rule uses the corrected reading of the `x` handicap (finding 3). The as-written reading is `Abilities.BeOfAsWritten`.
- TalentChecks.GameSessionDetail.RollTalentCheck: property values are looked up by exact name first (finding 4). The as-written lookup is `TalentChecks.PropertyValueAsWritten`.
- TalentChecks.TalentRoll: reads the property values through the corrected `TalentChecks.PropertyValue` (finding 4), not the as-written `TalentChecks.PropertyValueAsWritten`, so a check naming `GE` reads Gewandtheit here where the source may read Fingerfertigkeit.
- TalentChecks.CheckValues: the same corrected lookup as `TalentChecks.TalentRoll` (finding 4).
- TalentChecks.RollReported: the same corrected lookup as `TalentChecks.TalentRoll` (finding 4).
- BattlemapRequest.GetCellBackgrounds: decodes the packed field with the corrected format choice (`BattlemapRequest.CorrectedBackgroundsOf`, finding 1). The as-written `getCellBackgrounds` is `BattlemapRequest.GetCellBackgrounds` with `BattlemapRequest.DecodePackedBackgrounds` (`BattlemapRequest.PackedBackgroundsOf`) in place of the corrected decoder, and it differs only on the run-length payloads finding 1 describes.
- SvgRender.DrawMap: draws the terrain that `BattlemapRequest.GetCellBackgrounds` decodes, so it uses the corrected format choice of finding 1 as well; `SvgRender.DrawTerrain` itself takes the decoded list and is as written.
- BattlemapEditor.BattlemapEditorComponent.UpdatePreview: the preview's `ts` list (tokens and environment objects as the endpoint's token records) is not modelled; `BattlemapEditor.Preview` holds only the grid size, `bgp` and `wp`.
- Characters.Character.SetProperties: aliasing is not captured. In Java, passing the character's own list clears it before it is copied back, so `setProperties(getProperties())` leaves it empty; the model's value semantics keep the list.
- Case mapping (`Text.UpperChar`, `Text.LowerChar`) covers ASCII and Latin-1 only, one character to one. Java's and JavaScript's full Unicode mappings (`"ß".toUpperCase()` is `"SS"`) are not modelled, so `PropertyNames.GetByName`, `PropertyNames.GetByAbrv`, `Characters.FindTalent`, `TalentChecks.FindTalent`, `TalentChecks.FirstMatch` and `BackgroundTextures.Capitalize` agree with the source on ASCII and Latin-1 names only.
- SvgRender.GenerateSvg and BattlemapImage.GenerateBattlemapImage take the scenery guard as a parameter. `RecordGuardAsWritten` gives the endpoint as written, and `RecordGuard` the corrected one. Terrain is decoded with the corrected format choice (finding 1).

## Findings

| source | as written | input that shows it | evidently intended | confidence | as-written member | corrected member |
|---|---|---|---|---|---|---|
| dsa-table-backend/src/main/java/de/byedev/dsatable2/dsa_table_backend/web/dto/BattlemapImageRequest.java:324 | the packed terrain is read as nibbles whenever its length is within one of `total / 2`, including run-length payloads of that length | terrain `[1,1,1,1,1,1,1,2]` on a 4 x 2 grid: the editor writes the run-length stream `FF 01 07 02` (four bytes, within one of 8 / 2), and the backend reads its first cell as 15 instead of 1 | a payload that is a complete run-length stream covering exactly the grid is read as run-length; only other payloads are subject to the length test | high, not executed | CodecAgreement.NibbleWindowMisreadsEditorStream | CodecAgreement.RendererReadsEditorTerrain |
| dsa-table-backend/src/main/java/de/byedev/dsatable2/dsa_table_backend/web/dto/BattlemapImageRequest.java:237-250 | the scenery loop continues while five bytes remain, but reads the flags byte at offset 5 | scenery stream `00 01 00 02 00` (one bare five-byte record header): the flags read fails with an index out of bounds at 5 of 5, and the endpoint answers with an error image | the loop continues only while a whole six-byte record header remains, and a shorter tail ends decoding silently | high, not executed | CodecAgreement.FiveByteTail | SvgRender.SixByteGuardNeverOverruns |
| dsa-table-backend/src/main/java/de/byedev/dsatable2/dsa_table_backend/model/Ability.java:128-134 | the `x` test is made on the lower-cased handicap, but the multiplier is taken by splitting the original text on a lower-case `x` | handicap `"BEX3"`: the test sees `x`, the split finds none, and the rule multiplies by the default 2 instead of 3 | the multiplier after an `x` of either case is read | high, not executed | Abilities.CapitalXLosesMultiplier | Abilities.CapitalXMultiplierRead |
| dsa-table-frontend/src/app/components/game-session-detail/game-session-detail.component.ts:687-694 | a property matches an abbreviation's names when its upper-cased name equals one of them, starts with one, or merely contains one | a GE check for a character whose properties are Fingerfertigkeit 12 then Gewandtheit 15: "FINGERFERTIGKEIT" contains "GE", so the check uses 12 | the property named exactly by one of the abbreviation's names is used, before any looser match | medium, not executed | TalentChecks.AgilityReadsDexterity | TalentChecks.AgilityReadsAgility |
