# Noto website data: the resolution engine

This project models the logic inside `nototools/generate_website_data.py`. That
script builds the data behind the Noto fonts website. It indexes the font files
by family, script, variant, weight, style, hint status and platform. It picks the
members of each family for each target platform (Windows, Linux, other) and names
the zip package that holds them. For each language it finds the script, the
right-to-left flag, a native name and a sample text. It does this by walking the
CLDR locale fallback chain and parsing CLDR exemplar strings.

The modules follow the parts of that script:

- `Text`: code points, dictionary lookup over a table of entries, plus the few string operations the script uses (lower-casing, `replace`, `rindex`, `split(..)[0]`, `startswith`/`endswith`).
- `Exemplar`: the CLDR exemplar-string parser (`read_character_at`, `exemplar_string_to_list`). Each parser is a specification function plus the imperative method proved equal to it.
- `ExemplarProperties`: what the parser does on plain text, clusters, escapes and ranges, and a round trip. Any list of units, written out as escapes and clusters, parses back to itself.
- `LocaleFallback`: `find_parent_locale` and the fallback chain. It also holds a generic "first hit along the chain" walk and the two walks built on it: the exemplar walk and the native-name walk. A class `CldrData` holds the two memo caches of the script. Its methods run the source's `while` loops and are proved equal to the walks.
- `FontCatalog`: `convert_to_four_letter` (a function and its `for` loop), family keys, the indexing of one listed file, and `find_fonts` as a class. That class keeps the global font list and the set of supported scripts.
- `Css`: the weight table, the generic family and the style.
- `FamilySelection`: `fonts_are_basically_the_same`, plus the two drop passes and the representative check of `create_families_object`.
- `Packages`: the suffix decision table and the `zip_contents_cache` discipline of `create_zip`.
- `Families`: the whole per-key body of `create_families_object`, the loop over the keys, and `create_package_object`.
- `Scripts`: `find_likely_script`, `is_script_rtl`, the language/script split, the kana rewrite and the LGC query rule of `create_langs_object`.
- `SampleText`: `sample_text_from_exemplar`, `charset_supports_text` and the precedence chain of `get_sample_text`.

Every exception the Python code can raise on a path the model covers is an `Err` value, except the two listed under "## Left out" that the parsed documents cannot represent. This covers `assert`, `IndexError`, `KeyError` and the `ValueError` of tuple unpacking. The model checks these errors in the code's order.

External tables and I/O are parameters:

- the CLDR documents are a `CldrTree`: for each relative path, the parsed exemplar text and `languages` children;
- the Unicode script long names are a `LongNames` sequence, in dictionary order;
- the locale parent overrides, likely subtags and script metadata are maps;
- the sample-text files are a map of stripped texts;
- the family name stored in a font binary is a function from file paths;
- the Unicode category test is a predicate.

Behaviour of the code worth knowing:

- A malformed exemplar string aborts the run: the parser's assertion propagates through the exemplar walk.
- `find_parent_locale` compares the imported `locale` module with `'root'` at line 242. So it never returns `None`, and a locale without a dash maps to `"root"`.
- The chain of `pa-Arab-PK` without overrides is `pa-Arab-PK`, `pa-Arab`, `pa` (`LocaleFallback.PunjabiArabicPakistanChain`). So `pa-Arab` falls back to `pa`, and only `pa` falls back to `root`.
- The loose loop of `convert_to_four_letter` compares each long name with the script variable it reassigns. Once a name matches, the variable holds a code, and later names match only that code. So when every code maps to itself in the loose comparison, the first match wins, not the last (`FontCatalog.LooseScanFirstMatch`).
- A package file exists exactly when its base name is in the contents cache. The output directory starts empty and only `create_zip` writes packages.

## Model

| member | source | states |
|---|---|---|
| Exemplar.DecodeChar | nototools/generate_website_data.py:162-176 | a decoded character advances the pointer and stays within the string |
| Exemplar.HexRunEnd | nototools/generate_website_data.py:166-169 | the hex scan stops at the end of the longest run of hex digits |
| Exemplar.ReadCharacterAt | nototools/generate_website_data.py:162-176 | the scanning loop returns exactly what the decoding function specifies |
| Exemplar.ReadCluster | nototools/generate_website_data.py:190-194 | a successful cluster read stops on a closing brace inside the string |
| Exemplar.ReadMultiChar | nototools/generate_website_data.py:191-195 | the inner `while` loop over a `{...}` cluster returns exactly the cluster function's result or error |
| Exemplar.RangeUnits | nototools/generate_website_data.py:206 | `range(a+1, b+1)` gives the single code points a+1..b in increasing order, none when b <= a |
| Exemplar.Step | nototools/generate_website_data.py:186-208 | each loop iteration moves the pointer forward within the body |
| Exemplar.ReadUnitsAt | nototools/generate_website_data.py:188-209 | one iteration, with its space, cluster, range and plain branches and their failures, computes the step function |
| Exemplar.ParseFromStep | nototools/generate_website_data.py:187-209 | a successful iteration continues the parse from the new pointer and list |
| Exemplar.Body | nototools/generate_website_data.py:180-183 | the body needs a leading '['; it drops the '[' and one optional trailing ']' |
| Exemplar.ExemplarStringToList | nototools/generate_website_data.py:179-210 | the pointer-driven loop returns exactly what the parse function specifies |
| ExemplarProperties.ParsePlainFrom | nototools/generate_website_data.py:185-208 | from any point, plain characters add one unit each and spaces are skipped |
| ExemplarProperties.PlainExemplar | nototools/generate_website_data.py:179-210 | with no '{', '}', '-' or '\\', a bracketed body parses to its non-space characters in order |
| ExemplarProperties.PlainExemplarUnclosed | nototools/generate_website_data.py:180-183 | the closing ']' is optional: the unclosed form parses the same way |
| ExemplarProperties.SpaceStep | nototools/generate_website_data.py:188-189 | a space moves the pointer by one and adds nothing |
| ExemplarProperties.PlainCharStep | nototools/generate_website_data.py:207-209 | a plain non-space character adds itself as one unit and moves the pointer by one |
| ExemplarProperties.ReadPlainCluster | nototools/generate_website_data.py:190-194 | a cluster of plain characters reads up to the '}' and collects those characters |
| ExemplarProperties.PlainClusterStep | nototools/generate_website_data.py:189-196 | a `{...}` group adds exactly one unit, the concatenation of its characters, and moves past the '}' |
| ExemplarProperties.ClusterStep | nototools/generate_website_data.py:190-197 | a `{` whose cluster reads to the brace at `close` adds that one unit and moves past it |
| ExemplarProperties.DecodeUnicodeEscape | nototools/generate_website_data.py:164-171 | `\u` plus 4 to 6 hex digits decodes to their value, pointer past the last digit; any other count fails |
| ExemplarProperties.DecodeOtherCases | nototools/generate_website_data.py:163-176 | `\c` gives c at pointer+2; another character gives itself at pointer+1; ' ', '-', '{', '}' fail |
| ExemplarProperties.StepExtends | nototools/generate_website_data.py:186-208 | an iteration only appends to the list built so far |
| ExemplarProperties.ParseKeepsPrefix | nototools/generate_website_data.py:185-210 | the parsed list extends the list the loop started from |
| ExemplarProperties.RangeStep | nototools/generate_website_data.py:198-206 | after a one-character unit a, `-b` appends exactly a+1..b in order, keeps the list before it, and moves past b |
| ExemplarProperties.RangeErrors | nototools/generate_website_data.py:199-200 | a range with no unit before it, or after a cluster, fails |
| ExemplarProperties.PlainRange | nototools/generate_website_data.py:179-210 | `[a-b]` parses to a followed by a+1..b |
| ExemplarProperties.HexValueOfDigits | nototools/generate_website_data.py:171 | six written hex digits read back as the number they write |
| ExemplarProperties.DecodeEscapeAt | nototools/generate_website_data.py:164-171 | a six-digit escape decodes to its code point and moves eight places |
| ExemplarProperties.DecodeHexEscape | nototools/generate_website_data.py:164-172 | a code point written as `\u` and six hex digits, with no hex digit after them, decodes to itself eight places on |
| ExemplarProperties.ReadEscapedCluster | nototools/generate_website_data.py:191-195 | a cluster written out in escapes, then `}`, reads back as exactly its characters and stops at the brace |
| ExemplarProperties.StepRenderedUnit | nototools/generate_website_data.py:186-208 | one written-out unit is read back as that unit |
| ExemplarProperties.RenderedFrom | nototools/generate_website_data.py:185-210 | a written-out list of units standing at the end of the text is, unit by unit, in place there |
| ExemplarProperties.ParseRenderedSingle | nototools/generate_website_data.py:187-210 | the last written-out unit parses to that unit and ends the list |
| ExemplarProperties.ParseRenderedFirst | nototools/generate_website_data.py:187-209 | a written-out unit and its space are read, then the parse goes on with the unit added |
| ExemplarProperties.ParseRenderedCons | nototools/generate_website_data.py:187-210 | when the rest of the list parses back, so does the list with its first unit added |
| ExemplarProperties.ParseFromRendered | nototools/generate_website_data.py:185-210 | from any point, a written-out list of units parses back to the list |
| ExemplarProperties.ParseNotation | nototools/generate_website_data.py:179-210 | round trip: every list of units, written in the notation, parses back to itself |
| LocaleFallback.FindParentLocale | nototools/generate_website_data.py:237-244 | the override when there is one; else the text before the last '-'; else "root" |
| Text.LastIndexOf | nototools/generate_website_data.py:241 | `rindex`: nothing iff the character is absent; else the last position holding it |
| LocaleFallback.Chain | nototools/generate_website_data.py:247-256 | the locales a walk visits: starts at the locale, follows parents, never holds "root", and its last parent is "root" |
| LocaleFallback.ChainFuel | nototools/generate_website_data.py:249 | more steps than needed do not change the chain |
| LocaleFallback.ParentDropsOneDash | nototools/generate_website_data.py:240-241 | without an override, a parent has one dash less than its child |
| LocaleFallback.NoOverridesReachRoot | nototools/generate_website_data.py:237-256 | without overrides, every walk reaches "root" within (number of '-') + 1 steps |
| LocaleFallback.PunjabiArabicPakistanChain | nototools/generate_website_data.py:237-244 | locale example: pa-Arab-PK, then pa-Arab, then pa, then root |
| LocaleFallback.PunjabiArabicPakistanParent | nototools/generate_website_data.py:240-241 | pa-Arab-PK without an override has the parent pa-Arab |
| LocaleFallback.PunjabiArabicParent | nototools/generate_website_data.py:240-241 | pa-Arab without an override has the parent pa |
| LocaleFallback.PunjabiParent | nototools/generate_website_data.py:242-244 | pa has no dash and its parent is root |
| LocaleFallback.FirstHit | nototools/generate_website_data.py:250-255 | a found value satisfies the hit test |
| LocaleFallback.FirstHitIsFirst | nototools/generate_website_data.py:250-255 | the answer is the first key whose lookup fails or hits, and nothing when every key misses |
| LocaleFallback.FirstHitFrom | nototools/generate_website_data.py:250-254 | a key that misses passes the search to the next key; any other key gives its lookup as the answer |
| LocaleFallback.FirstHitConcat | nototools/generate_website_data.py:249-256 | searching two key lists in turn is searching their concatenation |
| LocaleFallback.Walk | nototools/generate_website_data.py:249-256 | a value found on the chain satisfies the hit test |
| LocaleFallback.WalkIsFirstHit | nototools/generate_website_data.py:249-256 | the walk, locale by locale and key by key, is the first hit over all keys of the chain in order |
| LocaleFallback.WalkStep | nototools/generate_website_data.py:249-255 | at a locale other than root the bound shrinks at the parent; the locale's keys answer unless all miss, and then the walk goes on at the parent |
| LocaleFallback.CldrPath | nototools/generate_website_data.py:251-252 | the document path is the partition name, "/main/", the locale with every '-' written as '_', then ".xml" |
| Text.ReplaceChar | nototools/generate_website_data.py:252 | `replace` of one character: same length, every occurrence replaced and nothing else changed |
| LocaleFallback.ExemplarFromFile | nototools/generate_website_data.py:216-234 | a missing document or one with no exemplar gives nothing; otherwise the result is the parse of the exemplar |
| LocaleFallback.ExemplarWalk | nototools/generate_website_data.py:247-256 | an exemplar found by the walk is non-empty |
| LocaleFallback.ExemplarWalkIsFirstHit | nototools/generate_website_data.py:247-256 | the exemplar is from the first locale in chain order, then common, seed, exemplars order, whose document fails or has a non-empty list |
| LocaleFallback.ScanLanguages | nototools/generate_website_data.py:282-290 | the text of the first child whose type, with '_' as '-', is the language; nothing iff every child is a `language` element for another language; an error iff a child that is not a `language` element comes before any match |
| LocaleFallback.LanguageNameFromFile | nototools/generate_website_data.py:268-290 | a missing document or one with no `languages` gives nothing; otherwise the scan of the children |
| LocaleFallback.NameKeys | nototools/generate_website_data.py:311-315 | for each locale: common then seed, and in each the full tag before the bare language |
| Text.FirstField | nototools/generate_website_data.py:304-307 | `split(c)[0]`: the longest prefix without c, followed by c unless it is the whole text |
| LocaleFallback.NativeLanguageName | nototools/generate_website_data.py:293-320 | the hard-coded name wins; a found name is non-empty |
| LocaleFallback.NativeNameIsFirstHit | nototools/generate_website_data.py:297-320 | the native name is the first hit over the chain's name keys, in order |
| LocaleFallback.CldrData.GetExemplarFromFile | nototools/generate_website_data.py:216-234 | memoised lookup: the result is the document's exemplar, and cached entries are never changed |
| LocaleFallback.CldrData.GetExemplarAt | nototools/generate_website_data.py:250-254 | the `for` loop over the partitions of one locale returns the first document that fails or has a non-empty list |
| LocaleFallback.CldrData.GetExemplar | nototools/generate_website_data.py:247-256 | the `while locl != 'root'` loop returns the exemplar walk |
| LocaleFallback.CldrData.GetLanguageNameFromFile | nototools/generate_website_data.py:268-290 | memoised lookup: the result is the document's name, and cached entries are never changed |
| LocaleFallback.CldrData.GetNativeNameAt | nototools/generate_website_data.py:311-318 | the nested loops over partitions and names of one locale return the first document that fails or has a non-empty name |
| LocaleFallback.CldrData.GetNativeLanguageName | nototools/generate_website_data.py:297-320 | the loop returns the native-name walk |
| Text.Lookup | nototools/generate_website_data.py:69-70 | a dictionary lookup: nothing iff no entry has the key; a found value is paired with the key in an entry |
| FontCatalog.LooseScan | nototools/generate_website_data.py:72-74 | the loose loop leaves the script alone or sets it to some entry's code |
| Text.RemoveChar | nototools/generate_website_data.py:73 | `replace(c, '')`: no c is left, exactly the occurrences of c are dropped, the text is unchanged without c, and one character is kept or dropped |
| Text.RemoveCharConcat | nototools/generate_website_data.py:73 | removing a character keeps the rest in order: it distributes over concatenation |
| FontCatalog.ConvertToFourLetter | nototools/generate_website_data.py:54-76 | odd-script table first, then the exact long name, then the loose scan: on success the value is the alias, the exact name's code or `LooseScan`'s result; the result has length 0 or 4, otherwise an error naming the resolved script |
| FontCatalog.ConvertToFourLetterLoop | nototools/generate_website_data.py:65-76 | the reassigning `for` loop computes the conversion function |
| FontCatalog.LooseScanNoMatch | nototools/generate_website_data.py:72-74 | with no loose match the script is unchanged |
| FontCatalog.LooseScanKeepsCode | nototools/generate_website_data.py:72-74 | with self-mapping codes, a loop that already holds a code keeps it |
| FontCatalog.LooseScanSplit | nototools/generate_website_data.py:72-74 | at the first match the loop continues from that entry's code |
| FontCatalog.LooseScanFirstMatch | nototools/generate_website_data.py:72-74 | with self-mapping codes, the first loose match decides the code |
| FontCatalog.FamilyKey | nototools/generate_website_data.py:149-154 | the lower-cased family with '-' for ' ', then "-" and the lower-cased script when there is one, then "-" and the lower-cased variant unless absent or "UI"; no upper case |
| Text.Lower | nototools/generate_website_data.py:154 | ASCII lower-casing: the same length, each character lower-cased, no upper-case letter left |
| Text.LowerConcat | nototools/generate_website_data.py:154 | lower-casing distributes over concatenation |
| FontCatalog.UiVariantSharesKey | nototools/generate_website_data.py:151-152 | the UI variant has the same key as the plain family |
| FontCatalog.NotoSansLatinKey | nototools/generate_website_data.py:149-154 | the key of Noto Sans, Latn is "noto-sans-latn" |
| FontCatalog.NotoNaskhUiKey | nototools/generate_website_data.py:149-154 | the key of Noto Naskh, Arab, UI is "noto-naskh-arab" |
| FontCatalog.IndexFile | nototools/generate_website_data.py:105-157 | unmatched files fail unless ignorable; Arimo/Cousine/Tinos add nothing; otherwise it fails iff the platform marker is not "-Windows" or the script does not convert; the scripts added are Latn, Grek, Cyrl for LGC or the code; a font is added iff the code is not Qaak, with the display family, the code, the variant and style, weight "Regular" for an empty weight, and the Windows platform for the marker |
| FontCatalog.NewFont | nototools/generate_website_data.py:137-157 | the record of a matched file is well formed and holds its path, family, script, variant, weight, style and platform |
| FontCatalog.IndexFiles | nototools/generate_website_data.py:102-157 | the listing loop only appends fonts and only adds scripts |
| FontCatalog.IndexFilesKeepsInvariant | nototools/generate_website_data.py:102-157 | every catalogued font is well formed and its non-empty script is a supported script |
| FontCatalog.IndexFilesConcat | nototools/generate_website_data.py:102-104 | indexing the three directories in turn is indexing their concatenated listing |
| FontCatalog.Listing | nototools/generate_website_data.py:102-105 | the hinted files, then the unhinted files, then the CJK files, each paired with its directory, in listing order |
| FontCatalog.FontIndex.IndexDirectory | nototools/generate_website_data.py:105-157 | appending fonts and adding scripts file by file gives the indexing function's catalog, or its error |
| FontCatalog.FontIndex.FindFonts | nototools/generate_website_data.py:89-157 | the global font list and script set become the catalog of the whole listing, or the first error |
| Css.FindEntry | nototools/generate_website_data.py:944-961 | in a table with no repeated names or weights, each entry is found by its name, and by its weight in the inverted table |
| Css.WeightTableBijective | nototools/generate_website_data.py:944-952 | the weight table repeats no name and no weight |
| Css.CssWeight | nototools/generate_website_data.py:954-955 | the weight of a table name; any other name is a lookup error |
| Css.CssWeightToString | nototools/generate_website_data.py:958-961 | the name of a table weight; any other weight is a lookup error |
| Css.WeightRoundTrips | nototools/generate_website_data.py:944-961 | the two lookups are inverse: name to weight to name, and weight to name to weight |
| Css.CssStyle | nototools/generate_website_data.py:964-969 | upright is "normal", "Italic" is "italic", any other style fails |
| Css.CssGenericFamily | nototools/generate_website_data.py:934-941 | serif, sans-serif and monospace for their families, both directions; nothing otherwise |
| FamilySelection.Candidates | nototools/generate_website_data.py:1084-1086 | exactly the fonts of the key that are not UI and whose file ends in "tf" |
| FamilySelection.DropsFromStep | nototools/generate_website_data.py:1089-1101 | collecting marks member by member gives the union of all marks |
| FamilySelection.DropPass | nototools/generate_website_data.py:1088-1101 | the loop that collects `members_to_drop` and then removes it leaves the members that no member marks |
| FamilySelection.PlatformPass | nototools/generate_website_data.py:1088-1101 | a member survives iff it is for the target, or is neutral with no basically-the-same target member |
| FamilySelection.PlatformPassProperties | nototools/generate_website_data.py:972-979 | only removes; keeps every target member; leaves only neutral or target members; a target member has no surviving twin of another platform |
| FamilySelection.DesiredHintStatus | nototools/generate_website_data.py:1103-1106 | hinted exactly for Windows and Linux |
| FamilySelection.HintPass | nototools/generate_website_data.py:1110-1117 | a member survives iff it has the desired status or no basically-the-same member does |
| FamilySelection.HintPassProperties | nototools/generate_website_data.py:1108-1117 | only removes; keeps every desired member; an undesired survivor has no desired twin |
| FamilySelection.Representatives | nototools/generate_website_data.py:1121-1122 | exactly the Regular upright members |
| FamilySelection.TheElement | nototools/generate_website_data.py:1124 | `pop` of a one-element set gives its element |
| FamilySelection.SelectMembers | nototools/generate_website_data.py:1083-1124 | the members are exactly the survivors of the platform pass and then the hint pass; it fails iff they do not have exactly one Regular upright member, and that member is the representative |
| FamilySelection.SelectMembersLoop | nototools/generate_website_data.py:1083-1124 | the two loops compute the selection function |
| FamilySelection.UniformCandidatesSurvive | nototools/generate_website_data.py:1088-1117 | neutral candidates of the desired status all survive |
| FamilySelection.NotoSansLatinForOther | nototools/generate_website_data.py:1083-1124 | example: Regular and Bold unhinted Noto Sans Latin, for "other", give both members with Regular as representative |
| Packages.HintStatusSets | nototools/generate_website_data.py:1005 | a set of statuses is one of four sets |
| Packages.PackageHintOf | nototools/generate_website_data.py:1005-1009 | one shared status, or "various" for none or both |
| Packages.ZipSuffix | nototools/generate_website_data.py:1011-1032 | each suffix, and the failure, with both directions of its condition |
| Packages.SuffixSeesOnlyLargeness | nototools/generate_website_data.py:1011-1032 | the count matters only through "more than 50" |
| Packages.DistinctBasenamesMeansInjective | nototools/generate_website_data.py:1003 | the cardinality check holds iff no two fonts share a base name |
| Packages.BasenamesBound | nototools/generate_website_data.py:1003 | there are never more base names than fonts |
| Packages.CreateZip | nototools/generate_website_data.py:1001-1047 | repeated base names fail, then the suffix table's error; the name is exactly major name + suffix + ".zip"; it succeeds iff that name holds these contents or is new with contents not yet recorded; the cache gains only this entry |
| Packages.CreateZipIdempotent | nototools/generate_website_data.py:1036-1038 | building the same package again succeeds with the same name and leaves the cache unchanged |
| Packages.CreateZipKeepsInjective | nototools/generate_website_data.py:1039-1041 | no two recorded packages ever have the same contents |
| Packages.PackageCache.BuildPackage | nototools/generate_website_data.py:1001-1047 | the cache becomes the one the specification computes, and stays injective |
| Families.BeforeLastSpace | nototools/generate_website_data.py:1128 | `rsplit(' ', 1)[0]`: the text before the last space, or everything |
| Families.DisplayName | nototools/generate_website_data.py:1127-1129 | a name ending in "Regular" loses its last word, or stays whole when it has no space; any other name is unchanged |
| Families.RegularWordDropped | nototools/generate_website_data.py:1127-1129 | "F Regular" displays as F |
| Families.CreateFamily | nototools/generate_website_data.py:1083-1151 | a family is created iff the selection and the package succeed and the members are stylable with a valid count; a selection error is passed on; a created family has the selection's members and representative, the package of its members and the representative's generic CSS family |
| Families.CreateFamilyIdempotent | nototools/generate_website_data.py:1083-1151 | creating the family again on the updated cache gives the same record and cache |
| Families.AllMembersAdd | nototools/generate_website_data.py:1119 | a new record adds exactly its members to all members |
| Families.AddFamilyKeepsInvariant | nototools/generate_website_data.py:1119-1151 | adding a checked record under a new key keeps the invariant |
| Families.CreateFamiliesKeepsInvariant | nototools/generate_website_data.py:1079-1153 | over distinct keys, every record is checked, `all_font_files` is the union of the members, and package contents stay distinct |
| Families.CreateFamiliesKeys | nototools/generate_website_data.py:1079-1153 | a successful loop has a record for every key and no other |
| Families.CreateFamiliesObject | nototools/generate_website_data.py:1079-1153 | over the distinct keys of the fonts, the loop gives the specification's records, files and cache, or its first error; on success there is a record for every font key and no other, every record is checked, and the files are the union of the members |
| Families.CreatePackageObject | nototools/generate_website_data.py:1190-1191 | the comprehensive "Noto" package of all files, as the package function specifies |
| Scripts.FindLikelyScript | nototools/generate_website_data.py:775-778 | the second subtag; an unknown language is a key error, a short entry an index error |
| Scripts.IsScriptRtl | nototools/generate_website_data.py:791-794 | true iff the sixth field is "YES"; unknown script or short line fails |
| Scripts.FontScript | nototools/generate_website_data.py:885-886 | the kana-only script becomes Jpan; any other script is kept |
| Scripts.SplitLangScr | nototools/generate_website_data.py:871-875 | a bare language takes its likely script; a tag with one dash splits around it; more dashes fail |
| Scripts.QueryScript | nototools/generate_website_data.py:897-900 | Latin, Greek, Cyrillic (and the empty script) query the empty script; any other queries itself |
| Scripts.ResolveLanguage | nototools/generate_website_data.py:871-903 | the split's language, the script with Kana read as Jpan, and the right-to-left flag of the tagged script; split and metadata errors pass through; an unsupported script off the allow-list fails; no font query iff the script is unsupported; otherwise the query script |
| Scripts.KanaResolvesToJapanese | nototools/generate_website_data.py:882-885 | a kana-tagged language resolves to Jpan but keeps the kana script's right-to-left flag |
| Scripts.SplitKana | nototools/generate_website_data.py:872-873 | a dash-free language plus "-Kana" splits into that language and Kana |
| Scripts.LgcLanguageQueriesLgcFonts | nototools/generate_website_data.py:871-900 | a bare language with a likely LGC script queries the LGC fonts |
| Scripts.FamiliesForQuery | nototools/generate_website_data.py:904-905 | a language's families are exactly the keys of fonts with its query script |
| SampleText.Shown | nototools/generate_website_data.py:325-327 | fails iff some unit is empty; keeps exactly the shown units and no others |
| SampleText.ShownCons | nototools/generate_website_data.py:325-327 | a shown first unit is kept before the filtered rest; another is dropped |
| SampleText.ShownConcat | nototools/generate_website_data.py:325-327 | the filter keeps order: it distributes over concatenation |
| SampleText.Split | nototools/generate_website_data.py:329 | the reference `split(' ')`: at least one field, none with a space |
| SampleText.SplitJoin | nototools/generate_website_data.py:329 | splitting a space-joined list of space-free units gives the list back |
| SampleText.SampleTextFromExemplar | nototools/generate_website_data.py:323-329 | fails iff some exemplar unit is empty; otherwise the space-joined first 50 shown units |
| SampleText.FirstUnits | nototools/generate_website_data.py:328 | `exemplar[:50]`: a prefix of the units, of length 50 or all of them |
| SampleText.SampleTextUnits | nototools/generate_website_data.py:323-329 | the text splits back into exactly the first 50 shown exemplar units in order, or all of them when there are at most 50 |
| SampleText.CharsetSupportsText | nototools/generate_website_data.py:857-861 | true iff the charset is known and holds every code point of the text |
| SampleText.SampleTextOf | nototools/generate_website_data.py:332-347 | the language's sample file first, then the exemplar walk, then the "und" file, then the empty text |
| SampleText.SampleTextFromFirstExemplar | nototools/generate_website_data.py:332-340 | without a sample file, the text comes from the first non-empty exemplar along the chain |
| SampleText.GetSampleText | nototools/generate_website_data.py:332-347 | with the memoised documents, the steps give the precedence function's text; the walk needs to reach root only when no sample file answers |

## Left out

- The parsed CLDR documents always carry the attributes and texts the code reads: a `language` child always has a `type`, and an `exemplarCharacters` element always has text. The source's crashes when these are missing (`AttributeError` on the type, `TypeError` on indexing absent text) are not modelled.
- XML parsing (ElementTree), file listing, reading sample files, reading font binaries (`get_font_family_name`) and the coverage library are I/O. Their results are inputs. The `exemplarCharacters` element without a `type` attribute is the `exemplar` field of a document. The `languages` children are its `languages` field. Stripping white space and decoding UTF-8 in sample files are done before the text reaches the model.
- The regular expression over font file names is not modelled. Each file arrives with its groups, or with no match.
- `parse_english_labels`, `get_english_language_name`, `parse_supplemental_data`, `parse_likely_subtags`, `parse_script_metadata` and `xml_to_dict` only build tables. The tables they produce are parameters. The literal tables of lines 378-562 and 638-772 are not transcribed.
- `create_regions_object`, `read_lat_long_data` (CSV and floating point) and `sorted_langs` (locale collation) are left out.
- `create_langs_object` is modelled only in its script part: the split, the right-to-left flag, the kana rewrite, the allow-list and the query script. Its loop over languages, its names, the `family_to_langs` index and `sample` assembly are not composed into one object.
- Zip writing, recompression, `copy_font`, `create_css`, `charset_to_ranges`, image generation, JSON output and `main` are I/O or orchestration. So are the `langs`, `css` and `ranges` fields of a family object.
- Unicode general categories are the predicate `isShown` (categories L, N, P, S of the first code point).
- Exemplar text is a sequence of code points, as in a wide (UCS-4) Python build: `unichr` accepts up to 0x10FFFF and an astral character is one unit. A narrow build, which fails above 0xFFFF and splits astral characters into surrogate pairs, is not modelled.
- `LowerChar` lower-cases ASCII only. Every name the model lower-cases is an ASCII script name or family key.
- Set and dictionary iteration order are inputs: the `LongNames` sequence and the order of the family keys.
- LocaleFallback.Chain, the walks and the `CldrData` loops take a bound `n` on the chain length, with the requirement that the walk reaches "root" within it. The source loops forever on a cyclic override table. Without overrides the bound always exists (`LocaleFallback.NoOverridesReachRoot`).
- Families.CreateFamiliesKeepsInvariant assumes distinct keys. The source iterates over a set of keys.
- FontCatalog.LooseScanFirstMatch needs every code to map to itself in the loose comparison. Without that, a later long name whose loose form equals the code found so far would replace it.
