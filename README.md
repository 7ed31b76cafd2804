# XMLWikiPrinter: the attribute-sanitising XML printer of XWiki Rendering

`XMLWikiPrinter` is the printer that the XWiki rendering renderers use to write
XML and XHTML. It wraps a dom4j `XMLWriter` around a `WikiWriter` that writes
to a `WikiPrinter`. Every element and start tag it prints first passes its
attributes through one XSS filter, `isAttributeClean`:

- the value is trimmed as Java's `String.trim()` does;
- names on a fixed whitelist are admitted for any value;
- `href` and `src` are admitted only when the trimmed value starts with one of
  six fixed prefixes;
- every other name is dropped.

This project models that printer in Dafny and proves that the filter does what
the class promises. It has four modules:

- `AttributePolicy` (`attribute_policy.dfy`): Java's `trim()`, the whitelist,
  the vulnerable names and the safe URL prefixes. It also holds the pure
  predicate `IsAttributeClean` and lemmas that state its verdicts as
  properties, including whitespace invariance, case-sensitive schemes and
  rejected script URLs.
- `Filtering` (`filtering.dfy`): a generic order-preserving filter over
  sequences. It proves that the result is a subsequence of the input, that
  each entry is kept with its multiplicity, that the filter distributes over
  concatenation and that it keeps a list whose every entry passes.
- `AttributeLists` (`attribute_lists.dfy`): the SAX attribute list, the
  `String[][]` rows and the `Map` entries that callers pass in. It holds the
  specification functions of the builders (`AttributesOfPairs`,
  `PresentEntries`) and of `cleanAttributes` (`Sanitized`), with their lemmas.
- `XmlPrinter` (`xml_wiki_printer.dfy`): the class `XmlWikiPrinter`. It has
  three fields:
  - `wikiPrinter`: the current sink, an opaque identifier;
  - `escapeText`: the XML writer's escape flag, which the printer toggles
    around CDATA sections;
  - `output`: every call made on the writer, oldest first.

  Each public printing method of the Java class is a method that appends
  exactly one writer event; `setWikiPrinter` changes only the sink and appends
  nothing (`getXMLWriter` is left out, see below). The class invariant `Valid()` states the security property:
  every attribute that ever reached the writer passes `IsAttributeClean`. The
  builders and `cleanAttributes` are static methods whose `for` loops are
  proved against the specification functions.

The dom4j writer is represented only by the events handed to it. What it does
with them is not part of this model; this covers escaping, tag balancing and
writing to the sink.

Two behaviours of the code worth stating, since a reader might expect
otherwise; the model follows the code:

- Attributes with the same name are appended one after the other, at lines 283,
  303 and 325 of `XMLWikiPrinter.java`. Nothing in this class replaces an
  earlier attribute, so the model keeps duplicates in order. It does not claim
  last-write-wins.
- `printXMLElement(String, Map)` does not go through `createAttributes`. It
  tests every entry directly, so a null value makes `trim()` throw. The model
  makes non-null values a precondition of that overload.
- A null attribute name, whether a map key or the first cell of a `String[][]`
  row, is silently dropped: `trim()` only touches the value, and neither list
  contains null. Names are therefore modelled as `Option<string>`.

## Model

| member | source | states |
|---|---|---|
| AttributePolicy.TrimLeading | xwiki-rendering-api/src/main/java/org/xwiki/rendering/renderer/printer/XMLWikiPrinter.java:341 | the result is no longer than the input and does not start with a character at or below U+0020 |
| AttributePolicy.TrimTrailing | xwiki-rendering-api/src/main/java/org/xwiki/rendering/renderer/printer/XMLWikiPrinter.java:341 | the result is no longer than the input and does not end with a character at or below U+0020 |
| AttributePolicy.TrimLeadingRemovesOnlyWhitespace | xwiki-rendering-api/src/main/java/org/xwiki/rendering/renderer/printer/XMLWikiPrinter.java:341 | the leading trim returns a suffix of the input, and every character it removed is at or below U+0020 |
| AttributePolicy.TrimTrailingRemovesOnlyWhitespace | xwiki-rendering-api/src/main/java/org/xwiki/rendering/renderer/printer/XMLWikiPrinter.java:341 | the trailing trim returns a prefix of the input, and every character it removed is at or below U+0020 |
| AttributePolicy.Trim | xwiki-rendering-api/src/main/java/org/xwiki/rendering/renderer/printer/XMLWikiPrinter.java:341 | `trim()` never lengthens a value, and its result neither starts nor ends with whitespace |
| AttributePolicy.TrimIdempotent | xwiki-rendering-api/src/main/java/org/xwiki/rendering/renderer/printer/XMLWikiPrinter.java:341 | trimming twice is trimming once |
| AttributePolicy.TrimLeadingSkips | xwiki-rendering-api/src/main/java/org/xwiki/rendering/renderer/printer/XMLWikiPrinter.java:341 | the leading trim ignores any run of whitespace put in front of a string |
| AttributePolicy.TrimTrailingSkips | xwiki-rendering-api/src/main/java/org/xwiki/rendering/renderer/printer/XMLWikiPrinter.java:341 | the trailing trim ignores any run of whitespace put after a string |
| AttributePolicy.TrimLeadingAppend | xwiki-rendering-api/src/main/java/org/xwiki/rendering/renderer/printer/XMLWikiPrinter.java:341 | the leading trim of `s` followed by `t` is the leading trim of `t` when `s` is all whitespace, and the leading trim of `s` followed by `t` otherwise |
| AttributePolicy.TrimIgnoresPadding | xwiki-rendering-api/src/main/java/org/xwiki/rendering/renderer/printer/XMLWikiPrinter.java:341 | `trim()` of a value padded with whitespace on both sides equals `trim()` of the value |
| AttributePolicy.TrimIgnoresLeading | xwiki-rendering-api/src/main/java/org/xwiki/rendering/renderer/printer/XMLWikiPrinter.java:341 | `trim()` of a value behind leading whitespace equals `trim()` of the value |
| AttributePolicy.TrimOfPadded | xwiki-rendering-api/src/main/java/org/xwiki/rendering/renderer/printer/XMLWikiPrinter.java:341 | a value whose ends are not whitespace is exactly what `trim()` recovers from it padded on both sides |
| AttributePolicy.TrimKeepsFirst | xwiki-rendering-api/src/main/java/org/xwiki/rendering/renderer/printer/XMLWikiPrinter.java:341 | a string that starts with a non-whitespace character keeps that first character after `trim()` |
| AttributePolicy.AttributesWhitelist | xwiki-rendering-api/src/main/java/org/xwiki/rendering/renderer/printer/XMLWikiPrinter.java:54-55 | the eleven names admitted whatever their value: alt, class, height, id, name, rel, scope, style, target, title, width |
| AttributePolicy.VulnerableAttributes | xwiki-rendering-api/src/main/java/org/xwiki/rendering/renderer/printer/XMLWikiPrinter.java:60 | the two URL-bearing names, `href` and `src`, admitted only with a safe value |
| AttributePolicy.SafeUrlPrefixes | xwiki-rendering-api/src/main/java/org/xwiki/rendering/renderer/printer/XMLWikiPrinter.java:345-346 | the six prefixes a trimmed `href`/`src` value may start with: `/`, `http`, `www`, `mailto`, `#`, `file` |
| AttributePolicy.HasSafeUrlPrefix | xwiki-rendering-api/src/main/java/org/xwiki/rendering/renderer/printer/XMLWikiPrinter.java:345-346 | a value starts with one of the safe prefixes, compared case-sensitively |
| AttributePolicy.SafeUrlPrefixTests | xwiki-rendering-api/src/main/java/org/xwiki/rendering/renderer/printer/XMLWikiPrinter.java:344-345 | "starts with one of the safe prefixes" holds exactly when one of the six `startsWith` tests of the source holds |
| AttributePolicy.IsAttributeClean | xwiki-rendering-api/src/main/java/org/xwiki/rendering/renderer/printer/XMLWikiPrinter.java:338-351 | a whitelisted name is clean for every value; `href`/`src` are clean if and only if the trimmed value starts with a safe prefix; any other name is never clean |
| AttributePolicy.CleanIgnoresTrim | xwiki-rendering-api/src/main/java/org/xwiki/rendering/renderer/printer/XMLWikiPrinter.java:341 | the verdict on a value equals the verdict on the trimmed value |
| AttributePolicy.CleanIgnoresPadding | xwiki-rendering-api/src/main/java/org/xwiki/rendering/renderer/printer/XMLWikiPrinter.java:341 | surrounding whitespace never changes the verdict, for any name |
| AttributePolicy.SafeUrlPrefixesShape | xwiki-rendering-api/src/main/java/org/xwiki/rendering/renderer/printer/XMLWikiPrinter.java:344-345 | every safe prefix is non-empty, starts with one of `/ h w m # f`, and does not end in whitespace |
| AttributePolicy.UnsafeSchemeRejected | xwiki-rendering-api/src/main/java/org/xwiki/rendering/renderer/printer/XMLWikiPrinter.java:341-350 | `href`/`src` whose value, after any leading whitespace, starts with a character no safe prefix starts with, is rejected |
| AttributePolicy.SafePrefixSurvivesTrim | xwiki-rendering-api/src/main/java/org/xwiki/rendering/renderer/printer/XMLWikiPrinter.java:341-345 | a prefix that does not begin or end in whitespace is still a prefix of the value after `trim()` |
| AttributePolicy.SafeUrlAccepted | xwiki-rendering-api/src/main/java/org/xwiki/rendering/renderer/printer/XMLWikiPrinter.java:341-347 | `href`/`src` whose value, after any leading whitespace, starts with a safe prefix is admitted whatever follows |
| AttributePolicy.ScriptUrlExample | xwiki-rendering-api/src/main/java/org/xwiki/rendering/renderer/printer/XMLWikiPrinter.java:341-350 | `href=" javascript:x"` is rejected |
| AttributePolicy.UpperCaseSchemeExample | xwiki-rendering-api/src/main/java/org/xwiki/rendering/renderer/printer/XMLWikiPrinter.java:344-350 | `src="HTTP://x"` is rejected: the prefix match is case-sensitive |
| AttributePolicy.PaddedUrlExample | xwiki-rendering-api/src/main/java/org/xwiki/rendering/renderer/printer/XMLWikiPrinter.java:341-347 | `href="  http://x"` is admitted |
| AttributeLists.Sanitized | xwiki-rendering-api/src/main/java/org/xwiki/rendering/renderer/printer/XMLWikiPrinter.java:317-329 | the cleaned list is never longer than its input |
| AttributeLists.SanitizedAllClean | xwiki-rendering-api/src/main/java/org/xwiki/rendering/renderer/printer/XMLWikiPrinter.java:317-329 | every attribute that `cleanAttributes` keeps passes `isAttributeClean` |
| AttributeLists.SanitizedConcat | xwiki-rendering-api/src/main/java/org/xwiki/rendering/renderer/printer/XMLWikiPrinter.java:320-327 | cleaning a concatenation is cleaning each part: the survivors keep the input order |
| AttributeLists.SanitizedCount | xwiki-rendering-api/src/main/java/org/xwiki/rendering/renderer/printer/XMLWikiPrinter.java:317-329 | a clean attribute is kept exactly as many times as it occurs in the input; an unclean one never |
| AttributeLists.SanitizedMembers | xwiki-rendering-api/src/main/java/org/xwiki/rendering/renderer/printer/XMLWikiPrinter.java:317-329 | an attribute is in the cleaned list if and only if it is in the input and clean |
| AttributeLists.SanitizedIsSubsequence | xwiki-rendering-api/src/main/java/org/xwiki/rendering/renderer/printer/XMLWikiPrinter.java:317-329 | the cleaned list is a subsequence of the input: nothing reordered or rewritten |
| AttributeLists.SanitizedKeepsClean | xwiki-rendering-api/src/main/java/org/xwiki/rendering/renderer/printer/XMLWikiPrinter.java:317-329 | a list whose every attribute is clean passes unchanged |
| AttributeLists.SanitizedIdempotent | xwiki-rendering-api/src/main/java/org/xwiki/rendering/renderer/printer/XMLWikiPrinter.java:317-329 | cleaning a cleaned list changes nothing |
| AttributeLists.SanitizedSingle | xwiki-rendering-api/src/main/java/org/xwiki/rendering/renderer/printer/XMLWikiPrinter.java:324-326 | a single attribute is kept exactly when it is clean |
| AttributeLists.SanitizedEntry | xwiki-rendering-api/src/main/java/org/xwiki/rendering/renderer/printer/XMLWikiPrinter.java:134-136 | a map entry with a non-null value contributes its attribute exactly when its key is non-null and the pair is clean |
| AttributeLists.SanitizedPairsStep | xwiki-rendering-api/src/main/java/org/xwiki/rendering/renderer/printer/XMLWikiPrinter.java:110-114 | one more table row extends the cleaned list by that row's attribute if it is clean, and by nothing otherwise |
| AttributeLists.SanitizedPresentEntriesStep | xwiki-rendering-api/src/main/java/org/xwiki/rendering/renderer/printer/XMLWikiPrinter.java:133-137 | one more map entry extends the cleaned list by that entry's attribute if its key is non-null and the pair clean, and by nothing otherwise |
| AttributeLists.AttributesOfPairs | xwiki-rendering-api/src/main/java/org/xwiki/rendering/renderer/printer/XMLWikiPrinter.java:277-288 | a table gives one attribute per row, in row order, with the row's name and value, nothing dropped |
| AttributeLists.AttributesOfPairsConcat | xwiki-rendering-api/src/main/java/org/xwiki/rendering/renderer/printer/XMLWikiPrinter.java:281-285 | the table builder keeps the row order across any split of the table |
| AttributeLists.EntryAttribute | xwiki-rendering-api/src/main/java/org/xwiki/rendering/renderer/printer/XMLWikiPrinter.java:299-304 | a map entry yields its attribute when both key and value are non-null, and nothing otherwise |
| AttributeLists.PresentEntries | xwiki-rendering-api/src/main/java/org/xwiki/rendering/renderer/printer/XMLWikiPrinter.java:293-309 | the map builder never yields more attributes than there are entries |
| AttributeLists.PresentEntriesConcat | xwiki-rendering-api/src/main/java/org/xwiki/rendering/renderer/printer/XMLWikiPrinter.java:297-306 | the map builder keeps the iteration order across any split of the entries |
| AttributeLists.PresentEntriesMembers | xwiki-rendering-api/src/main/java/org/xwiki/rendering/renderer/printer/XMLWikiPrinter.java:297-306 | a name/value attribute is built if and only if the map has that entry with both key and value non-null, and no attribute with a null name is ever built |
| AttributeLists.PresentEntriesComplete | xwiki-rendering-api/src/main/java/org/xwiki/rendering/renderer/printer/XMLWikiPrinter.java:297-306 | a map without null keys or values loses no entry |
| XmlPrinter.AllEventsClean | xwiki-rendering-api/src/main/java/org/xwiki/rendering/renderer/printer/XMLWikiPrinter.java:105-181 | every attribute in a log of writer calls passes `isAttributeClean` |
| XmlPrinter.XmlWikiPrinter.Valid | xwiki-rendering-api/src/main/java/org/xwiki/rendering/renderer/printer/XMLWikiPrinter.java:105-181 | the class invariant: every attribute that ever reached the writer, on every element and start-tag path, passes `isAttributeClean` |
| XmlPrinter.AllEventsCleanAppend | xwiki-rendering-api/src/main/java/org/xwiki/rendering/renderer/printer/XMLWikiPrinter.java:174-181 | handing the writer an event whose attributes are all clean keeps the whole log clean |
| XmlPrinter.XmlWikiPrinter.constructor | xwiki-rendering-api/src/main/java/org/xwiki/rendering/renderer/printer/XMLWikiPrinter.java:65-70 | a new printer writes to the given sink, escapes text and has written nothing |
| XmlPrinter.XmlWikiPrinter.SetWikiPrinter | xwiki-rendering-api/src/main/java/org/xwiki/rendering/renderer/printer/XMLWikiPrinter.java:77-80 | only the sink changes; the escape flag and everything written so far are kept |
| XmlPrinter.XmlWikiPrinter.PrintXml | xwiki-rendering-api/src/main/java/org/xwiki/rendering/renderer/printer/XMLWikiPrinter.java:85-92 | text goes to the current sink, escaped according to the current escape flag |
| XmlPrinter.XmlWikiPrinter.PrintXmlElement | xwiki-rendering-api/src/main/java/org/xwiki/rendering/renderer/printer/XMLWikiPrinter.java:97-100 | an element without a table gets no attributes |
| XmlPrinter.XmlWikiPrinter.PrintXmlElementPairs | xwiki-rendering-api/src/main/java/org/xwiki/rendering/renderer/printer/XMLWikiPrinter.java:105-123 | the element carries exactly the clean rows of the table (a null name is never clean), in row order; a null or empty table gives an element without attributes; the log stays clean |
| XmlPrinter.XmlWikiPrinter.PrintXmlElementMap | xwiki-rendering-api/src/main/java/org/xwiki/rendering/renderer/printer/XMLWikiPrinter.java:128-145 | the element carries exactly the clean entries with a non-null key, in iteration order; a null or empty map gives an element without attributes; the log stays clean |
| XmlPrinter.XmlWikiPrinter.PrintXmlStartElement | xwiki-rendering-api/src/main/java/org/xwiki/rendering/renderer/printer/XMLWikiPrinter.java:150-153 | a start tag without attributes |
| XmlPrinter.XmlWikiPrinter.PrintXmlStartElementPairs | xwiki-rendering-api/src/main/java/org/xwiki/rendering/renderer/printer/XMLWikiPrinter.java:158-161 | the start tag carries exactly the clean rows of the table, in row order; a null or empty table gives a start tag without attributes |
| XmlPrinter.XmlWikiPrinter.PrintXmlStartElementMap | xwiki-rendering-api/src/main/java/org/xwiki/rendering/renderer/printer/XMLWikiPrinter.java:166-169 | the start tag carries exactly the clean entries whose key and value are non-null, in iteration order; a null or empty map gives a start tag without attributes |
| XmlPrinter.XmlWikiPrinter.PrintXmlStartElementAttributes | xwiki-rendering-api/src/main/java/org/xwiki/rendering/renderer/printer/XMLWikiPrinter.java:174-181 | the start tag carries the cleaned attribute list, so the log stays clean |
| XmlPrinter.XmlWikiPrinter.PrintXmlEndElement | xwiki-rendering-api/src/main/java/org/xwiki/rendering/renderer/printer/XMLWikiPrinter.java:186-193 | one end tag is written; nothing else changes |
| XmlPrinter.XmlWikiPrinter.PrintXmlComment | xwiki-rendering-api/src/main/java/org/xwiki/rendering/renderer/printer/XMLWikiPrinter.java:202-205 | a comment is written verbatim |
| XmlPrinter.XmlWikiPrinter.PrintXmlCommentEscaping | xwiki-rendering-api/src/main/java/org/xwiki/rendering/renderer/printer/XMLWikiPrinter.java:214-221 | the comment body is the comment-escaped content when asked, the content itself otherwise |
| XmlPrinter.XmlWikiPrinter.PrintXmlStartCData | xwiki-rendering-api/src/main/java/org/xwiki/rendering/renderer/printer/XMLWikiPrinter.java:226-235 | the CDATA section opens, and afterwards text is no longer escaped |
| XmlPrinter.XmlWikiPrinter.PrintXmlEndCData | xwiki-rendering-api/src/main/java/org/xwiki/rendering/renderer/printer/XMLWikiPrinter.java:240-248 | the CDATA section closes, and afterwards text is escaped again, whatever the flag was before |
| XmlPrinter.XmlWikiPrinter.PrintEntity | xwiki-rendering-api/src/main/java/org/xwiki/rendering/renderer/printer/XMLWikiPrinter.java:250-257 | one entity reference is written; nothing else changes |
| XmlPrinter.XmlWikiPrinter.PrintRaw | xwiki-rendering-api/src/main/java/org/xwiki/rendering/renderer/printer/XMLWikiPrinter.java:265-272 | raw text is written unescaped; nothing else changes |
| XmlPrinter.XmlWikiPrinter.CreateAttributesFromPairs | xwiki-rendering-api/src/main/java/org/xwiki/rendering/renderer/printer/XMLWikiPrinter.java:277-288 | the built list is the table's rows in order, unfiltered; a null or empty table gives an empty list |
| XmlPrinter.XmlWikiPrinter.CreateAttributesFromMap | xwiki-rendering-api/src/main/java/org/xwiki/rendering/renderer/printer/XMLWikiPrinter.java:293-309 | the built list is the entries whose key and value are both non-null, in iteration order; a null or empty map gives an empty list |
| XmlPrinter.XmlWikiPrinter.CleanAttributes | xwiki-rendering-api/src/main/java/org/xwiki/rendering/renderer/printer/XMLWikiPrinter.java:317-329 | the returned list is the clean subsequence of the input |

## Left out

- `getXMLWriter()` (lines 72-75) hands the raw dom4j writer to callers. Anything they write through it bypasses the filter and is not modelled. The log-clean invariant covers only this class's own methods.
- The dom4j `XMLWriter`/`XHTMLWriter` and the `WikiWriter` are foreign code. Character escaping, tag balancing, well-formedness and the bytes sent to the `WikiPrinter` are not modelled; the writer is represented only by the events it receives.
- The `WikiPrinter` sink is an opaque identifier. What a sink does with the output is foreign I/O.
- `XMLUtils.escapeXMLComment` is not part of this model. An escaped comment is recorded symbolically as `EscapedForComment(content)`.
- The `IOException`, `SAXException` and `Exception` handlers are empty in the source, so a failing write silently loses that output. The model treats every write as successful and always records the event.
- XmlPrinter.XmlWikiPrinter.PrintXmlStartCData: `ensures !escapeText` holds only when the writer succeeds; in the source a throwing `startCDATA()` also skips `setEscapeText(false)` (lines 228-231), which the model does not capture.
- The namespace URI, local name and type of SAX attributes are dropped. The filter reads only the qualified name and value, and the builders pass null for the others.
- Whether dom4j's `addAttribute` replaces an attribute of the same name is library behaviour. The model follows this class, which appends every attribute.
- `String[][]` rows shorter than two cells, and rows whose value is null, throw in the source (`entry[1]`, then `value.trim()`). Rows are modelled as a nullable name and a non-null value, so that error path is not modelled. Null names are modelled and dropped, as the source drops them.
- XmlPrinter.XmlWikiPrinter.PrintXmlElementMap: requires every value to be non-null, because the source throws a `NullPointerException` at `value.trim()` for a null value. This error path is not modelled.
- A `Map` is given as the sequence of its entries in `entrySet()` iteration order. The choice of that order belongs to the `Map` implementation.
- Concurrency: the class is not thread-safe and the model is sequential.
- `RenderingConfiguration`, `ParameterManager` and `XHTMLWikiPrinter` are interfaces without logic here and are not part of this model.
