/**
 * XMLWikiPrinter: the printer every XML-based renderer writes through. The
 * dom4j writer it drives is modelled as the sequence of calls it receives; the
 * printer's own state is the writer's escape-text flag and the WikiPrinter the
 * writer currently sends its text to.
 */
module XmlPrinter {
  import opened AttributePolicy
  import opened AttributeLists

  /** Identifies the WikiPrinter sink that receives the writer's output. */
  type WikiPrinterId = nat

  /** A comment body: as given, or passed through XMLUtils.escapeXMLComment (not modelled). */
  datatype CommentBody = Verbatim(text: string) | EscapedForComment(text: string)

  /** One call the printer makes on the XML writer (or, for Raw, on the WikiWriter underneath it). */
  datatype WriterEvent =
    | Text(text: string, escaped: bool)
    | Element(name: string, attributes: seq<Attribute>)
    | StartElement(name: string, attributes: seq<Attribute>)
    | EndElement(name: string)
    | Comment(body: CommentBody)
    | StartCData
    | EndCData
    | Entity(name: string)
    | Raw(text: string)

  /** A writer call together with the sink that was current when it was made. */
  datatype Emitted = Emitted(target: WikiPrinterId, event: WriterEvent)

  /** The attributes an event carries: those of an element or a start tag, none otherwise. */
  function AttributesOf(e: WriterEvent): seq<Attribute> {
    match e
    case Element(_, attributes) => attributes
    case StartElement(_, attributes) => attributes
    case _ => []
  }

  /** Every attribute in the log passed the policy. */
  predicate AllEventsClean(log: seq<Emitted>) {
    forall i :: 0 <= i < |log| ==> AllClean(AttributesOf(log[i].event))
  }

  /** Appending an event whose attributes are all clean keeps the log clean. */
  lemma AllEventsCleanAppend(log: seq<Emitted>, e: Emitted)
    requires AllEventsClean(log) && AllClean(AttributesOf(e.event))
    ensures AllEventsClean(log + [e])
  {
    forall i | 0 <= i < |log + [e]| ensures AllClean(AttributesOf((log + [e])[i].event)) {
      if i < |log| {
        assert (log + [e])[i] == log[i];
      }
    }
  }

  class XmlWikiPrinter {
    /** The WikiPrinter the WikiWriter currently writes to. */
    var wikiPrinter: WikiPrinterId
    /** The XML writer's escape-text flag: whether text is escaped as it is written. */
    var escapeText: bool
    /** Every call made on the writer, oldest first. */
    var output: seq<Emitted>

    /** The security invariant: every attribute that reached the writer passed the policy. */
    ghost predicate Valid()
      reads this
    {
      AllEventsClean(output)
    }

    /** A fresh printer writing to `printer`; the writer starts out escaping text. */
    constructor (printer: WikiPrinterId)
      ensures Valid()
      ensures wikiPrinter == printer && escapeText && output == []
    {
      wikiPrinter := printer;
      escapeText := true;
      output := [];
    }

    /** setWikiPrinter: later output goes to `printer`; nothing written so far moves. */
    method SetWikiPrinter(printer: WikiPrinterId)
      requires Valid()
      modifies this
      ensures Valid()
      ensures wikiPrinter == printer
      ensures escapeText == old(escapeText) && output == old(output)
    {
      wikiPrinter := printer;
    }

    /** printXML: text handed to the writer, escaped when the escape-text flag is set. */
    method PrintXml(text: string)
      requires Valid()
      modifies this
      ensures Valid()
      ensures wikiPrinter == old(wikiPrinter) && escapeText == old(escapeText)
      ensures output == old(output) + [Emitted(wikiPrinter, Text(text, escapeText))]
    {
      output := output + [Emitted(wikiPrinter, Text(text, escapeText))];
    }

    /** printXMLElement(name): an empty element, as with a null attribute table. */
    method PrintXmlElement(name: string)
      requires Valid()
      modifies this
      ensures Valid()
      ensures wikiPrinter == old(wikiPrinter) && escapeText == old(escapeText)
      ensures output == old(output) + [Emitted(wikiPrinter, Element(name, []))]
    {
      PrintXmlElementPairs(name, None);
    }

    /**
     * printXMLElement(name, String[][]): an element carrying exactly the rows
     * that pass the policy, in row order, with their values as given.
     */
    method PrintXmlElementPairs(name: string, attributes: Option<seq<Pair>>)
      requires Valid()
      modifies this
      ensures Valid()
      ensures wikiPrinter == old(wikiPrinter) && escapeText == old(escapeText)
      ensures output == old(output) +
        [Emitted(wikiPrinter, Element(name, Sanitized(AttributesOfPairs(OrEmpty(attributes)))))]
      ensures attributes.None? || attributes.value == [] ==>
        output == old(output) + [Emitted(wikiPrinter, Element(name, []))]
    {
      var element: seq<Attribute> := [];
      if attributes.Some? && |attributes.value| > 0 {
        var pairs := attributes.value;
        var i := 0;
        while i < |pairs|
          invariant 0 <= i <= |pairs|
          invariant element == Sanitized(AttributesOfPairs(pairs[..i]))
          modifies {}
        {
          var entry := pairs[i];
          SanitizedPairsStep(pairs, i);
          if entry.0.Some? && IsAttributeClean(entry.0.value, entry.1) {
            element := element + [Attribute(entry.0, entry.1)];
          } else {
            assert element + [] == element;
          }
          i := i + 1;
        }
        assert pairs[..i] == pairs;
      }
      SanitizedAllClean(AttributesOfPairs(OrEmpty(attributes)));
      AllEventsCleanAppend(output, Emitted(wikiPrinter, Element(name, element)));
      output := output + [Emitted(wikiPrinter, Element(name, element))];
    }

    /**
     * printXMLElement(name, Map): an element carrying exactly the entries that
     * pass the policy, in iteration order. A null key is on neither list and is
     * dropped; a null value would make trim() throw, so callers must not pass one.
     */
    method PrintXmlElementMap(name: string, attributes: Option<seq<MapEntry>>)
      requires Valid()
      requires attributes.Some? ==>
        forall i :: 0 <= i < |attributes.value| ==> attributes.value[i].value.Some?
      modifies this
      ensures Valid()
      ensures wikiPrinter == old(wikiPrinter) && escapeText == old(escapeText)
      ensures output == old(output) +
        [Emitted(wikiPrinter, Element(name, Sanitized(PresentEntries(OrEmpty(attributes)))))]
      ensures attributes.None? || attributes.value == [] ==>
        output == old(output) + [Emitted(wikiPrinter, Element(name, []))]
    {
      var element: seq<Attribute> := [];
      if attributes.Some? && |attributes.value| > 0 {
        var entries := attributes.value;
        var i := 0;
        while i < |entries|
          invariant 0 <= i <= |entries|
          invariant element == Sanitized(PresentEntries(entries[..i]))
          modifies {}
        {
          var entry := entries[i];
          SanitizedPresentEntriesStep(entries, i);
          var key, value := entry.key, entry.value.value;
          if key.Some? && IsAttributeClean(key.value, value) {
            element := element + [Attribute(key, value)];
          } else {
            assert element + [] == element;
          }
          i := i + 1;
        }
        assert entries[..i] == entries;
      }
      SanitizedAllClean(PresentEntries(OrEmpty(attributes)));
      AllEventsCleanAppend(output, Emitted(wikiPrinter, Element(name, element)));
      output := output + [Emitted(wikiPrinter, Element(name, element))];
    }

    /** printXMLStartElement(name): a start tag without attributes. */
    method PrintXmlStartElement(name: string)
      requires Valid()
      modifies this
      ensures Valid()
      ensures wikiPrinter == old(wikiPrinter) && escapeText == old(escapeText)
      ensures output == old(output) + [Emitted(wikiPrinter, StartElement(name, []))]
    {
      PrintXmlStartElementAttributes(name, []);
    }

    /** printXMLStartElement(name, String[][]): the table is turned into a list, then cleaned. */
    method PrintXmlStartElementPairs(name: string, attributes: Option<seq<Pair>>)
      requires Valid()
      modifies this
      ensures Valid()
      ensures wikiPrinter == old(wikiPrinter) && escapeText == old(escapeText)
      ensures output == old(output) +
        [Emitted(wikiPrinter, StartElement(name, Sanitized(AttributesOfPairs(OrEmpty(attributes)))))]
      ensures attributes.None? || attributes.value == [] ==>
        output == old(output) + [Emitted(wikiPrinter, StartElement(name, []))]
    {
      var list := CreateAttributesFromPairs(attributes);
      PrintXmlStartElementAttributes(name, list);
    }

    /** printXMLStartElement(name, Map): null keys and values are dropped, the rest cleaned. */
    method PrintXmlStartElementMap(name: string, attributes: Option<seq<MapEntry>>)
      requires Valid()
      modifies this
      ensures Valid()
      ensures wikiPrinter == old(wikiPrinter) && escapeText == old(escapeText)
      ensures output == old(output) +
        [Emitted(wikiPrinter, StartElement(name, Sanitized(PresentEntries(OrEmpty(attributes)))))]
      ensures attributes.None? || attributes.value == [] ==>
        output == old(output) + [Emitted(wikiPrinter, StartElement(name, []))]
    {
      var list := CreateAttributesFromMap(attributes);
      PrintXmlStartElementAttributes(name, list);
    }

    /** printXMLStartElement(name, Attributes): the one place start tags reach the writer, always cleaned. */
    method PrintXmlStartElementAttributes(name: string, attributes: seq<Attribute>)
      requires Valid()
      modifies this
      ensures Valid()
      ensures wikiPrinter == old(wikiPrinter) && escapeText == old(escapeText)
      ensures output == old(output) + [Emitted(wikiPrinter, StartElement(name, Sanitized(attributes)))]
    {
      var clean := CleanAttributes(attributes);
      SanitizedAllClean(attributes);
      AllEventsCleanAppend(output, Emitted(wikiPrinter, StartElement(name, clean)));
      output := output + [Emitted(wikiPrinter, StartElement(name, clean))];
    }

    /** printXMLEndElement: a close tag; balancing is left to the writer. */
    method PrintXmlEndElement(name: string)
      requires Valid()
      modifies this
      ensures Valid()
      ensures wikiPrinter == old(wikiPrinter) && escapeText == old(escapeText)
      ensures output == old(output) + [Emitted(wikiPrinter, EndElement(name))]
    {
      output := output + [Emitted(wikiPrinter, EndElement(name))];
    }

    /** printXMLComment(content): the content is written as given. */
    method PrintXmlComment(content: string)
      requires Valid()
      modifies this
      ensures Valid()
      ensures wikiPrinter == old(wikiPrinter) && escapeText == old(escapeText)
      ensures output == old(output) + [Emitted(wikiPrinter, Comment(Verbatim(content)))]
    {
      PrintXmlCommentEscaping(content, false);
    }

    /** printXMLComment(content, escape): the escaped body when `escape` is set, the content as given otherwise. */
    method PrintXmlCommentEscaping(content: string, escape: bool)
      requires Valid()
      modifies this
      ensures Valid()
      ensures wikiPrinter == old(wikiPrinter) && escapeText == old(escapeText)
      ensures output == old(output) +
        [Emitted(wikiPrinter, Comment(if escape then EscapedForComment(content) else Verbatim(content)))]
    {
      var body := if escape then EscapedForComment(content) else Verbatim(content);
      output := output + [Emitted(wikiPrinter, Comment(body))];
    }

    /** printXMLStartCData: opens the section, then stops escaping text. */
    method PrintXmlStartCData()
      requires Valid()
      modifies this
      ensures Valid()
      ensures !escapeText
      ensures wikiPrinter == old(wikiPrinter)
      ensures output == old(output) + [Emitted(wikiPrinter, StartCData)]
    {
      output := output + [Emitted(wikiPrinter, StartCData)];
      escapeText := false;
    }

    /** printXMLEndCData: resumes escaping text, then closes the section. */
    method PrintXmlEndCData()
      requires Valid()
      modifies this
      ensures Valid()
      ensures escapeText
      ensures wikiPrinter == old(wikiPrinter)
      ensures output == old(output) + [Emitted(wikiPrinter, EndCData)]
    {
      escapeText := true;
      output := output + [Emitted(wikiPrinter, EndCData)];
    }

    /** printEntity: an entity reference whose name and text are both `entity`. */
    method PrintEntity(entity: string)
      requires Valid()
      modifies this
      ensures Valid()
      ensures wikiPrinter == old(wikiPrinter) && escapeText == old(escapeText)
      ensures output == old(output) + [Emitted(wikiPrinter, Entity(entity))]
    {
      output := output + [Emitted(wikiPrinter, Entity(entity))];
    }

    /** printRaw: text written straight to the WikiWriter, bypassing escaping. */
    method PrintRaw(row: string)
      requires Valid()
      modifies this
      ensures Valid()
      ensures wikiPrinter == old(wikiPrinter) && escapeText == old(escapeText)
      ensures output == old(output) + [Emitted(wikiPrinter, Raw(row))]
    {
      output := output + [Emitted(wikiPrinter, Raw(row))];
    }

    /** createAttributes(String[][]): every row copied in order, unfiltered; null or empty gives an empty list. */
    static method CreateAttributesFromPairs(parameters: Option<seq<Pair>>) returns (attributes: seq<Attribute>)
      ensures attributes == AttributesOfPairs(OrEmpty(parameters))
      ensures parameters.None? || parameters.value == [] ==> attributes == []
    {
      attributes := [];
      if parameters.Some? && |parameters.value| > 0 {
        var pairs := parameters.value;
        for i := 0 to |pairs|
          invariant |attributes| == i
          invariant forall j :: 0 <= j < i ==> attributes[j] == Attribute(pairs[j].0, pairs[j].1)
        {
          attributes := attributes + [Attribute(pairs[i].0, pairs[i].1)];
        }
      }
    }

    /** createAttributes(Map): the entries whose key and value are both non-null, in iteration order. */
    static method CreateAttributesFromMap(parameters: Option<seq<MapEntry>>) returns (attributes: seq<Attribute>)
      ensures attributes == PresentEntries(OrEmpty(parameters))
      ensures parameters.None? || parameters.value == [] ==> attributes == []
    {
      attributes := [];
      if parameters.Some? && |parameters.value| > 0 {
        var entries := parameters.value;
        for i := 0 to |entries|
          invariant attributes == PresentEntries(entries[..i])
        {
          var entry := entries[i];
          PresentEntriesConcat(entries[..i], [entry]);
          assert entries[..i + 1] == entries[..i] + [entry];
          assert PresentEntries([entry]) == EntryAttribute(entry);
          if entry.key.Some? && entry.value.Some? {
            attributes := attributes + [Attribute(entry.key, entry.value.value)];
          }
        }
        assert entries[..|entries|] == entries;
      }
    }

    /** cleanAttributes: the entries that pass isAttributeClean, in their original order. */
    static method CleanAttributes(attributes: seq<Attribute>) returns (clean: seq<Attribute>)
      ensures clean == Sanitized(attributes)
    {
      clean := [];
      for i := 0 to |attributes|
        invariant clean == Sanitized(attributes[..i])
      {
        var a := attributes[i];
        SanitizedConcat(attributes[..i], [a]);
        assert attributes[..i + 1] == attributes[..i] + [a];
        if a.qName.Some? && IsAttributeClean(a.qName.value, a.value) {
          clean := clean + [a];
        }
      }
      assert attributes[..|attributes|] == attributes;
    }
  }
}
