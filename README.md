# ijw2pmtg in Dafny

A Dafny model of the core of `ijw2pmtg`, a command-line tool that fetches Magic: The Gathering
card images from Scryfall and lays them out on printable proxy sheets. The model covers:

- **Card lists** (`scryfall/parsing.py`). `detect_format` picks one of five list formats from a
  file's extension and first line. Each format's `parse_line` pulls a card name out of one line.
  `CardParser.parse` runs the chosen parser over a file, skipping comments, section headers and a
  CSV header row.
- **Card requests and downloads** (`scryfall/cli.py`):
  - `parse_card_input` reads requests such as `10x Card Name (set code) Set Name`;
  - `slugify` makes a card name safe to use as a file name;
  - `download_cards` names and requests one image per face;
  - `list_cards` chooses between the JSON listing and the text listings.
- **The on-disk cache** (`scryfall/cache.py`). It covers the record and image path builders, the
  creation of the cache directories, and the read/write strategies.
- **Proxy sheets** (`proxy/cli.py`):
  - `arrange_images` places card images on a grid;
  - `stitch_images` cuts a list of images into pages of `width × height` cards and names the
    page files;
  - `redact_images` parses and checks its size, region and replacement arguments.

Regular expressions are written as explicit searches that follow Python's backtracking order:
a greedy repetition tries its longest run first, and a lazy one its shortest. The declarative
reading of each pattern is proved about the search. The file system is a set of existing paths
plus a map from paths to contents. Network responses and the results of searches are parameters.
Images are named by their paths, and what is drawn is recorded as paste operations.

Modules:

| module | file |
|---|---|
| `Wrappers` | `Option` and `Result` |
| `Text` | Python string helpers: `isspace`, `strip`, ASCII `upper`, `split`/`join`, decimal text |
| `PosixPath` | `os.path.join`, `os.path.split`, `os.makedirs` |
| `ScryfallParsing` | `scryfall/parsing.py` |
| `RequestGrammar` | the request pattern of `parse_card_input` |
| `ScryfallCli` | `scryfall/cli.py` |
| `ScryfallCache` | `scryfall/cache.py` |
| `ProxyCli` | `arrange_images` and `stitch_images` of `proxy/cli.py` |
| `ProxyRedact` | `redact_images` of `proxy/cli.py` |

## Model

| member | source | states |
|---|---|---|
| Text.Strip | scryfall/parsing.py:53 | `str.strip()` keeps the text between the first and the last non-whitespace character, so it is never longer than its input; `StripSpec` characterises it |
| Text.StripSpec | scryfall/cli.py:287-289 | `strip()` removes exactly the leading and trailing whitespace: the result has no whitespace at either end, it is empty exactly when the input is all whitespace, and it is a slice of the input with only whitespace around it |
| Text.StripIdempotent | scryfall/parsing.py:53 | stripping twice is stripping once |
| Text.StripPadded | scryfall/parsing.py:71 | a stripped text padded with whitespace on both sides strips back to itself |
| Text.DecimalRoundTrip | scryfall/cli.py:286 | `int(str(n)) == n` for every natural `n` |
| Text.SplitJoin | proxy/cli.py:347 | splitting joined pieces that do not hold the separator gives the pieces back |
| PosixPath.PathJoin | scryfall/cache.py:61 | `os.path.join`: an absolute second part replaces the first; otherwise the parts are joined, with a '/' inserted when the first is non-empty and does not end in one |
| PosixPath.PathJoinInjective | scryfall/cache.py:61 | joining onto one directory maps different names, both relative or both absolute, to different paths |
| PosixPath.SplitPath | scryfall/cache.py:54 | `os.path.split`, on which `os.makedirs` recurses: the head is a prefix of the path and the tail a suffix without '/' |
| PosixPath.MakeDirs | scryfall/cache.py:54 | `os.makedirs(p)` fails with FileNotFoundError exactly when `p` is empty (`mkdir("")`), and otherwise creates `p`, after its missing ancestors |
| PosixPath.MakeDirsWithinPath | scryfall/cache.py:54 | `os.makedirs(p)` creates only `p` and ancestors of `p` |
| ScryfallParsing.HeadIsExportMatches | scryfall/parsing.py:97 | the scan for the export pattern holds exactly when `^.+\(.*\)\s+\d*` matches the head |
| ScryfallParsing.HeadIsDigitsXMatches | scryfall/parsing.py:99 | the scan for `^\d+x` holds exactly when the pattern matches |
| ScryfallParsing.DetectFormat | scryfall/parsing.py:89-90 | the collection format is chosen exactly when the extension is `.csv` |
| ScryfallParsing.DetectFormatPriority | scryfall/parsing.py:94-106 | on the stripped first line, the export test wins over `<digits>x`, which wins over `<digits>`, and plain is the fallback; each format is chosen exactly when the earlier tests fail and its own succeeds |
| ScryfallParsing.DetectQuantityX | scryfall/parsing.py:99-100 | "4x Lightning Bolt" as the first line selects the quantity-x format |
| ScryfallParsing.DetectQuantity | scryfall/parsing.py:101-102 | "4 Lightning Bolt" as the first line selects the bare-quantity format |
| ScryfallParsing.DetectExport | scryfall/parsing.py:97-98 | "Name (SET) 146" as the first line selects the export format |
| ScryfallParsing.DetectPlainWithoutNumber | scryfall/parsing.py:97-106 | "Name (SET)" with nothing after the ')' is not an export line, so it falls through to plain |
| ScryfallParsing.DetectBlankFirstLine | scryfall/parsing.py:94-106 | a blank first line selects the plain format |
| ScryfallParsing.DetectPlain | scryfall/parsing.py:105-106 | a first line that does not start with a digit and holds no '(' selects the plain format |
| ScryfallParsing.ExportDetectedButUnparsable | scryfall/parsing.py:75-98 | detection accepts "Name (SET) text" because `\d*` may be empty, but the export parser needs `\d+` and raises on the same line |
| ScryfallParsing.NoDigitCloseRaises | scryfall/parsing.py:75-76 | without `)`, whitespace and a digit anywhere in the line, the export parser raises |
| ScryfallParsing.QuantityLine | scryfall/parsing.py:59-62 | the bare-quantity parser never returns `None`: it raises, or returns text without a newline that is shorter than the line |
| ScryfallParsing.QuantityXLine | scryfall/parsing.py:64-67 | the quantity-x parser never returns `None`: it raises, or returns text without a newline, shorter than the line by at least `x` and one space |
| ScryfallParsing.PlainLine | scryfall/parsing.py:69-71 | the plain parser always returns a stripped text no longer than the line |
| ScryfallParsing.ExportLine | scryfall/parsing.py:73-76 | the export parser never returns `None`: it raises, or returns the non-empty card group of `.+`, shorter than the line |
| ScryfallParsing.CollectionLine | scryfall/parsing.py:78-84 | an empty line gives no CSV row and so `None`; any other line gives its first column, a prefix of the line without ',' |
| ScryfallParsing.QuantityLineRoundTrip | scryfall/parsing.py:61-62 | the bare-quantity parser returns what follows the count and its whitespace |
| ScryfallParsing.QuantityXLineRoundTrip | scryfall/parsing.py:66-67 | the quantity-x parser returns what follows `<count>x` and its whitespace |
| ScryfallParsing.ExportLineIsFirstMatch | scryfall/parsing.py:75-76 | the export parser raises exactly when no split of the line matches; otherwise it returns the card of the match Python finds first: the longest leading whitespace, then the longest card |
| ScryfallParsing.ExportLineRoundTrip | scryfall/parsing.py:75-76 | for "Name (SET) 146" the export parser returns everything before the '(' of the set |
| ScryfallParsing.IsSectionHeaderMatches | scryfall/parsing.py:51 | the section-header test holds exactly when `^\[.*\]` matches |
| ScryfallParsing.Collect | scryfall/parsing.py:45-56 | the loop of `parse` over the lines it reads: at most one card per line |
| ScryfallParsing.ParseSpec | scryfall/parsing.py:41-56 | `parse`: at most one card per line, and in a `.csv` file the header line never gives one |
| ScryfallParsing.CollectBounds | scryfall/parsing.py:45-56 | `parse` returns at most one non-empty name per line; when it fails, a line that is not skipped made the parser raise |
| ScryfallParsing.Parse | scryfall/parsing.py:41-56 | the loop (with the `.csv` header flag) computes the same result as the recursive definition of `parse` |
| ScryfallParsing.CollectAppend | scryfall/parsing.py:45-56 | parsing two runs of lines is parsing the first and then the second, stopping at the first failure |
| ScryfallParsing.CollectOneLine | scryfall/parsing.py:49-55 | a skipped line gives nothing; otherwise a line gives its parser's result when that is a non-empty string, nothing when it is `None` or empty, and an error when the parser raises |
| ScryfallParsing.CsvHeaderDropped | scryfall/parsing.py:44-48 | a `.csv` file always loses its first line, whatever it holds |
| ScryfallParsing.BlankLineRaises | scryfall/parsing.py:49-53 | a blank line "\n" is not skipped, so the two quantity parsers raise on it while the plain parser drops it |
| ScryfallParsing.CollectSkippingBlank | scryfall/parsing.py:49-50 | the corrected loop returns only non-empty names |
| ScryfallParsing.CorrectedIgnoresBlankLine | scryfall/parsing.py:49-50 | the corrected loop gives the same result wherever a blank line is inserted |
| ScryfallParsing.CorrectedAgreesWithoutBlankLines | scryfall/parsing.py:45-56 | on lines without blank ones the corrected loop and `parse` agree |
| RequestGrammar.Match | scryfall/cli.py:283 | `re.match` of the request pattern: every group of a match is a span of the input, and the quantity group is made of digits |
| RequestGrammar.MatchIffNonEmpty | scryfall/cli.py:283-284 | on a one-line input the request pattern matches exactly when the input is non-empty |
| RequestGrammar.QuantityFromFallsBack | scryfall/cli.py:283 | once the name can match from the start of the line, the greedy quantity, giving back one digit at a time, always ends in a match |
| RequestGrammar.QuantityIsDigitRun | scryfall/cli.py:283 | when something follows the leading digits, the quantity group is exactly that digit run, or absent when there is none |
| RequestGrammar.DigitsOnly | scryfall/cli.py:283 | on an input of digits only, the greedy quantity gives back its last digit, which becomes the name |
| RequestGrammar.NameStopsAtBlock | scryfall/cli.py:283 | the lazy name ends right before the whitespace that leads to the first usable `(block)`, and the block ends at the first ')' |
| RequestGrammar.NameFromNoOpen | scryfall/cli.py:283 | with no '(' after it, the name runs to the end of the input |
| ScryfallCli.ParseCardInput | scryfall/cli.py:278-291 | the result is `None` exactly for comment lines; every card it returns has no uuid or collector number and is not double-faced |
| ScryfallCli.FallbackOnlyForEmpty | scryfall/cli.py:283-291 | on one line, the no-match fallback is reached only for the empty input, and gives a card with an empty name |
| ScryfallCli.QuantityIsLeadingDigits | scryfall/cli.py:285-286 | the quantity is the leading digit run read as an integer, or 1 when there is none |
| ScryfallCli.DigitsOnlyInput | scryfall/cli.py:283-290 | on an input of digits only, the last digit is the name and the digits before it the quantity: "123" asks for 12 copies of "3" |
| ScryfallCli.NameOnlyRequest | scryfall/cli.py:283-290 | with no '(' after the quantity and its separator, the card is the trimmed rest of the line, with no block or set name |
| ScryfallCli.CardOf | scryfall/cli.py:285-290 | the card built from a match keeps the dataclass defaults for uuid, collector number and double-facedness; it has a block exactly when the `(block)` group matched, a set name only with a block, and quantity 1 without a quantity group |
| ScryfallCli.BlockRequest | scryfall/cli.py:283-290 | with a `(block)`, the name is trimmed up to the whitespace before '(', the block is trimmed, and the set name is the trimmed text after the ')' or none |
| ScryfallCli.NameOnlyParts | scryfall/cli.py:278-291 | `<q><x or space><name>` gives the trimmed name and quantity `q`, or 1 |
| ScryfallCli.BlockParts | scryfall/cli.py:278-291 | `<q><sep><name> (<block>) <set name>` gives the three parts trimmed, quantity `q` or 1, and no set name when it is empty |
| ScryfallCli.ParsesCardName | scryfall/tests/test_cli.py:13-14 | "Card Name" is a request for one "Card Name" |
| ScryfallCli.ParsesNameWithComma | scryfall/tests/test_cli.py:16-20 | a comma stays part of the name |
| ScryfallCli.ParsesBlockAndSetName | scryfall/tests/test_cli.py:22-26 | "Card Name (set code) Set Name" |
| ScryfallCli.ParsesBlock | scryfall/tests/test_cli.py:28-32 | "Card Name (set code)" |
| ScryfallCli.ParsesCommaNameBlockAndSetName | scryfall/tests/test_cli.py:34-38 | "Card Name, With Comma (set code) Set Name" |
| ScryfallCli.ParsesQuantityXWithBlock | scryfall/tests/test_cli.py:40-44 | "1x Card Name (set code)" |
| ScryfallCli.ParsesQuantityXWithBlockAndSetName | scryfall/tests/test_cli.py:46-50 | "10x Card Name (set code) Set Name" asks for 10 |
| ScryfallCli.ParsesQuantityX | scryfall/tests/test_cli.py:52-55 | "5x Card Name" asks for 5 |
| ScryfallCli.ParsesQuantityWithBlock | scryfall/tests/test_cli.py:57-61 | "1 Card Name (set code)" |
| ScryfallCli.ParsesQuantityWithBlockAndSetName | scryfall/tests/test_cli.py:63-67 | "10 Card Name (set code) Set Name" asks for 10 |
| ScryfallCli.ParsesQuantity | scryfall/tests/test_cli.py:69-72 | "5 Card Name" asks for 5 |
| ScryfallCli.CommentsGiveNothing | scryfall/tests/test_cli.py:74-78 | "#5 Card Name" and "// 5 Card Name" give nothing |
| ScryfallCli.Slugify | scryfall/cli.py:324-326 | the result has the input's length and no unsafe character |
| ScryfallCli.SlugifyPointwise | scryfall/cli.py:325 | each of `/\<>|"*?:` becomes '_', and every other character stays |
| ScryfallCli.SlugifyFixesSafeNames | scryfall/cli.py:325 | a name is unchanged exactly when it holds no unsafe character |
| ScryfallCli.SlugifyIdempotent | scryfall/cli.py:325 | slugifying twice is slugifying once |
| ScryfallCli.SlugifyMergesUnsafe | scryfall/cli.py:325 | "a/b" and "a:b" share the file name "a_b" |
| ScryfallCli.DownloadPath | scryfall/cli.py:341-346 | every image path ends with its face's extension from the filename table |
| ScryfallCli.DownloadPaths | scryfall/cli.py:341-360 | the two faces are `<output>/<slug>[.BLOCK].png` and `<output>/<slug>[.BLOCK].back.png`, and they differ |
| ScryfallCli.DownloadPathIgnoresBlockCase | scryfall/cli.py:345 | the block's letter case does not change the file name |
| ScryfallCli.DownloadSpec | scryfall/cli.py:344-362 | a dry run requests nothing and counts at most one entry per card; otherwise `downloaded` has one entry per image request, and each card makes one or two requests |
| ScryfallCli.DownloadOutcome | scryfall/cli.py:338-362 | `download_cards` fails with FileNotFoundError exactly when the output path is empty, before any card; otherwise the directory it creates changes nothing, and the run is that of the loop on the disk as it was |
| ScryfallCli.DownloadCards | scryfall/cli.py:338-362 | the method creates the output directory when it is missing and stops on the error `os.makedirs` raises; its loop computes the `downloaded` list and the image requests of the recursive definition |
| ScryfallCli.FrontsOutsideOutput | scryfall/cli.py:338-346 | no front image path is one of the directories `os.makedirs(output)` creates |
| ScryfallCli.DownloadSpecFronts | scryfall/cli.py:344-353 | the loop asks the disk only about front images: two disks that agree on those give the same run |
| ScryfallCli.DownloadCount | scryfall/cli.py:356-362 | outside a dry run, every card is requested once, and once more for its back face when it is double-faced; `downloaded` holds one entry per request |
| ScryfallCli.FetchesArePaths | scryfall/cli.py:346-361 | each request is for a listed card, is for its front or (only for a double-faced card) its back, and saves to that face's path |
| ScryfallCli.DryRunFetchesNothing | scryfall/cli.py:348-354 | a dry run requests nothing, and `downloaded` is exactly the listed cards whose front image does not exist yet, in order and once per listing |
| ScryfallCli.DryRunKeepsMissing | scryfall/cli.py:348-354 | the dry-run list is the listed cards, filtered in order and with repeats, whose front image path is not on disk |
| ScryfallCli.ListingFormatOf | scryfall/cli.py:240-256 | `--json` wins; the collector number is listed only with the block, and the set name only with both; otherwise names only |
| ScryfallCli.ListingLine | scryfall/cli.py:242-256 | each line of a text listing starts with the card name, and is the bare name exactly in the names-only format |
| ScryfallCli.ListingLines | scryfall/cli.py:243-256 | one line per card, in order |
| ScryfallCli.ListCards | scryfall/cli.py:233-264 | an empty query reports that nothing was asked, an empty result prints nothing, and `--json` dumps exactly the cards found |
| ScryfallCli.NameListingRoundTrip | scryfall/cli.py:256 | the names listing splits back into the names of the cards found |
| ScryfallCli.BlockListingReadsBack | scryfall/cli.py:254 | a `Name (block)` listing line, fed back to `parse_card_input`, asks for one copy of that card from that block |
| ScryfallCache.SetSuffix | scryfall/cache.py:66 | the suffix is empty exactly when the set code is missing or empty; otherwise it is '.' and the upper-cased code |
| ScryfallCache.ImageCachePath | scryfall/cache.py:63-68 | a face missing from the filename table is an error naming that face |
| ScryfallCache.CardCachePath | scryfall/cache.py:56-61 | every record path ends in `.json` |
| ScryfallCache.CardPathIgnoresSetCodeCase | scryfall/cache.py:56-61 | two set codes give the same record path exactly when they agree up to case |
| ScryfallCache.CardPathWithoutSetCode | scryfall/cache.py:57-61 | a missing and an empty set code both give `name.json` |
| ScryfallCache.CardPathExample | scryfall/tests/test_scryfall.py:73 | "Black Lotus" from `lea` is `data/Black Lotus.LEA.json` |
| ScryfallCache.FrontAndBackImagesDiffer | scryfall/cache.py:63-68 | the front is `name[.SET].png`, the back `name[.SET].back.png`, and the two differ |
| ScryfallCache.ImagePathIgnoresSetCodeCase | scryfall/cache.py:66 | the image path does not depend on the case of the set code |
| ScryfallCache.UnknownFaceFails | scryfall/cache.py:67 | an unknown face name is an error |
| ScryfallCache.EnsureSpec | scryfall/cache.py:51-54 | visiting the directories never removes a path, and the only error `os.makedirs` raises here is FileNotFoundError for the empty path |
| ScryfallCache.EnsureSpecCreates | scryfall/cache.py:51-54 | nothing that existed is removed; the visit fails with FileNotFoundError exactly when an empty path is among the directories; every directory visited before that exists afterwards, all of them when none is empty |
| ScryfallCache.EnsureSpecNoop | scryfall/cache.py:53 | when every directory the visit reaches exists, nothing is created, and only an empty path fails |
| ScryfallCache.EnsureSpecIdempotent | scryfall/cache.py:51-54 | a second call creates nothing and ends the same way, with the same error if any |
| ScryfallCache.EnsureSpecWithinPaths | scryfall/cache.py:54 | every directory created is a cache directory or one of its ancestors |
| ScryfallCache.EnsureSpecStops | scryfall/cache.py:52-54 | once `os.makedirs` has raised, the later directories are not visited |
| ScryfallCache.CacheLayoutOutcome | scryfall/cache.py:45-54 | ensuring the cache directories fails exactly for the empty base directory, and then creates nothing; otherwise all three exist afterwards |
| ScryfallCache.CacheManager.constructor | scryfall/cache.py:45-48 | the attributes `__init__` sets: the base directory, `base/data` and `base/images` |
| ScryfallCache.CacheManager.Create | scryfall/cache.py:45-54 | `CacheManager(base_dir)` raises the error of ensuring the directories when there is one; otherwise it returns a new manager whose directories and existing paths are those of the definition |
| ScryfallCache.CacheManager.EnsureDirectories | scryfall/cache.py:51-54 | the loop makes each missing directory in order and stops at the first error; the existing paths and the error it returns are those of the definition |
| ScryfallCache.ReadAfterWrite | scryfall/cache.py:21-29 | a read after a write to the same path returns the written data |
| ScryfallCache.WriteLeavesOthers | scryfall/cache.py:26-41 | a write leaves what is read at every other path unchanged |
| ScryfallCache.CacheStore.Read | scryfall/cache.py:21-36 | `read` returns the stored content, or the missing-file error |
| ScryfallCache.CacheStore.Write | scryfall/cache.py:26-41 | `write` replaces the content at its path and nothing else |
| ProxyCli.ArrangeGrid | proxy/cli.py:235-244 | the grid measures `width·1040` by `height·745` and has one paste per image, in order |
| ProxyCli.ArrangeImages | proxy/cli.py:235-244 | arranging fails exactly when a size is negative (`Image.new`) or the width is zero with images to place (`%` by zero); the grid is `width·1040 × height·745` with one paste per image, in order |
| ProxyCli.ArrangedOffsets | proxy/cli.py:243 | image `i` is pasted at `((i mod width)·1040, (i div width)·745)` |
| ProxyCli.TileInsideGrid | proxy/cli.py:238-243 | for `i < width·height`, tile `i` lies wholly inside the grid |
| ProxyCli.TileOffsetsDistinct | proxy/cli.py:243 | distinct indices get distinct offsets |
| ProxyCli.Chunks | proxy/cli.py:289-314 | the page cut of the images: no pages exactly when there are no images |
| ProxyCli.ChunksFlatten | proxy/cli.py:292-305 | the pages concatenate back to the input, in order |
| ProxyCli.ChunksSizes | proxy/cli.py:294-305 | every page but the last holds exactly `width·height` images, and the last holds between one and `width·height` |
| ProxyCli.ChunksCount | proxy/cli.py:285 | the number of pages is `ceil(n / (width·height))`, and there are none for no images |
| ProxyCli.PageNamesDistinct | proxy/cli.py:299-313 | pages with different numbers are saved to different files |
| ProxyCli.PagesOf | proxy/cli.py:297-303 | page `k` is saved as `_grid{w}x{h}_{k}.png`, numbered from 1, with its chunk arranged on it |
| ProxyCli.StitchSpec | proxy/cli.py:279-314 | `stitch_images` fails with FileNotFoundError exactly when `os.makedirs` refuses the output path, the empty one; otherwise with ZeroDivision exactly when `width·height` is 0; it saves pages only for a non-empty output path, positive sizes and some images |
| ProxyCli.StitchImages | proxy/cli.py:279-314 | the loop, with its reset of `cards` and its count of pages, saves exactly the pages of the page-cut definition; an empty output path fails before anything, and a zero page size is a division error before any page |
| ProxyCli.StitchMeetsSpec | proxy/cli.py:292-314 | the loop followed by its leftover page gives the pages of the page-cut definition |
| ProxyCli.StitchLoopValid | proxy/cli.py:292-304 | after any prefix of the images, the pages saved are those of its full pages and the images collected are the rest, fewer than a page |
| ProxyCli.StitchLoopInvalid | proxy/cli.py:294-297 | with a negative size, the first page the loop tries to arrange stops it with the size error |
| ProxyRedact.ParseInt | proxy/cli.py:347 | `int()` on an optionally signed digit string: a parsed text starts with a digit or a sign, and a negative value with '-' |
| ProxyRedact.ParseIntRoundTrip | proxy/cli.py:347-353 | `int(str(i)) == i` |
| ProxyRedact.ParseSize | proxy/cli.py:347 | the size `WxH` is split on 'x': a size without 'x' is rejected |
| ProxyRedact.SizeRoundTrip | proxy/cli.py:347 | every size written `WxH` reads back as itself |
| ProxyRedact.DefaultSizeParses | proxy/cli.py:193 | the default size `745x1040` is 745 wide and 1040 high |
| ProxyRedact.ParseRegion | proxy/cli.py:353 | the region `x,y,w,h` is split on ',': a region without ',' is rejected |
| ProxyRedact.RegionRoundTrip | proxy/cli.py:353 | every region written `x,y,w,h` reads back as itself |
| ProxyRedact.MalformedRegions | proxy/cli.py:353 | three numbers, five numbers, or a word among four parts are not a region |
| ProxyRedact.ParseRegions | proxy/cli.py:350-359 | the regions parse exactly when every text is four integers; they are then parsed one for one, and otherwise the error names the first text that is not |
| ProxyRedact.RegionPatches | proxy/cli.py:379-387 | region `i` is covered by replacement `i` when there is one, and by a black rectangle otherwise |
| ProxyRedact.RedactImages | proxy/cli.py:345-389 | the size is checked first, then every region, then the replacement count; any failure touches no image, and a bad region is reported as the first one; with some images, a zero height is a division error and a width that is not positive is refused; otherwise every image is fitted to the parsed size and patched region by region, with replacements used for all regions or for none |

## Left out

- Network calls (`scryfall/api.py`) and the search behind `list_cards`. The cards a search or
  `list_card_names` returns are parameters.
- Logging, the colour log formatter, `dryrun` messages and the argparse `App` classes.
- Image pixels. `Image.open`, `Image.new`, `paste`, `save`, `ImageOps.contain`, `resize` and
  `rotate` are foreign library calls. Arranging and redacting are modelled as the paste
  operations they request. A failure to open a file is not modelled.
- `rotate_images`, `resize_images` and `Range`: pixel work and a float comparison.
- The first `stitch_images` (proxy/cli.py:247-276). The second definition at line 279 shadows it.
- `parse_text_file`. It calls `detect_text_file_format`, which is not defined anywhere, so it
  cannot run.
- CSV quoting. The collection parser takes the text before the first comma; Python's `csv`
  module is not modelled.
- JSON encoding. Stored cache contents and the JSON listing are opaque values.
- Where the `list_cards` output goes (a file or standard output). The model returns the text.
- Paths are plain strings and are never normalised: `cache/` and `cache` are different entries in
  the set of existing paths, as are `a//b` and `a/b`.
- The `IMAGE_FILENAME_FORMAT` table. `scryfall/cache.py` imports it from the `scryfall` package
  and `scryfall/cli.py` from `scryfall/api.py`. The package's `__init__.py` is not part of this
  model, and `scryfall/api.py` does not define the name. The table here,
  `{}.png` for the front and `{}.back.png` for the back, is the one the expected paths in
  `scryfall/tests/test_scryfall.py:270` and its double-faced test show. The cache functions take
  the table as a parameter.
- `os.path.exists` does not tell files from directories. The model's set of existing paths does
  not either.
- PosixPath.MakeDirs: when the last part of a path is `.`, `os.makedirs` stops after creating the
  parent; the model records the path itself. Other `mkdir` failures (a parent that is a file, a
  missing permission) are not modelled.
- Text.Upper: only ASCII letters are upper-cased. `str.upper` also maps other letters.
- ProxyRedact.ParseInt: only an optional sign followed by ASCII digits is accepted. Python's
  `int()` also accepts surrounding whitespace, underscores between digits and non-ASCII digits.
- Text.IsDigit: `\d` is restricted to ASCII digits. In a `str` pattern Python also accepts other
  Unicode decimal digits.
- ProxyRedact.RedactImages: replacement images are counted, not opened or resized. A region
  whose width or height PIL rejects is not an error in the model. Nor is a size with a positive
  width and a negative height, or one whose fitted side rounds to 0: whether `ImageOps.contain`
  then fails depends on the image's own dimensions, which the model does not have.

## Findings

| source | as written | input that shows it | evidently intended | confidence | as-written member | corrected member |
|---|---|---|---|---|---|---|
| scryfall/parsing.py:49-53 | `if not line` tests the raw line, and iterating a file yields `"\n"` for a blank line, so a blank line is never skipped: it is stripped to `""` and given to `parse_line`, where the two quantity patterns fail and `match.group` raises | a quantity-format file with a blank line, `["\n"]` | the comment says "Empty line or comment": a blank line should be skipped like a comment | not executed | ScryfallParsing.BlankLineRaises | ScryfallParsing.CorrectedIgnoresBlankLine |
