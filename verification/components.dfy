/** The decision logic of the link-preview components (src/PreviewMessageLinks/components.tsx):
    hiding message links in rendered content, one embed per linked message, the embed's
    render choice, and the depth slider's markers. Rendered elements are abstract values. */
module Components {
  import opened Base
  import opened MessageCache
  import opened Subscriptions
  import opened Hooks

  /** The groups of the client's message-link pattern: the whole link, guild, channel, message. */
  datatype LinkMatch = LinkMatch(href: string, guildId: string, channelId: Snowflake, messageId: Snowflake)

  /** The link pattern, left abstract: a matcher that yields the groups or nothing. */
  type LinkMatcher = string -> Option<LinkMatch>

  /** One child of rendered message content: plain text, or an element with an optional `href`. */
  datatype Part = Text(text: string) | Element(href: Option<string>)

  /** `part?.props?.href?.match(linkRegex)` is truthy. */
  predicate IsLinkPart(matcher: LinkMatcher, p: Part) {
    p.Element? && p.href.Some? && matcher(p.href.value).Some?
  }

  /** The parts that are not message links, in order. */
  function StripLinks(matcher: LinkMatcher, parts: seq<Part>): (r: seq<Part>)
    ensures |r| <= |parts|
    ensures forall p :: p in r <==> p in parts && !IsLinkPart(matcher, p)
  {
    if |parts| == 0 then []
    else if IsLinkPart(matcher, parts[0]) then StripLinks(matcher, parts[1..])
    else [parts[0]] + StripLinks(matcher, parts[1..])
  }

  lemma {:induction false} StripLinksKeepsOrder(matcher: LinkMatcher, xs: seq<Part>, ys: seq<Part>)
    ensures StripLinks(matcher, xs + ys) == StripLinks(matcher, xs) + StripLinks(matcher, ys)
    decreases |xs|
  {
    if |xs| > 0 {
      assert (xs + ys)[0] == xs[0];
      assert (xs + ys)[1..] == xs[1..] + ys;
      StripLinksKeepsOrder(matcher, xs[1..], ys);
    } else {
      assert xs + ys == ys;
    }
  }

  /** ECMAScript white space and line terminators, the characters `trim` removes. */
  predicate IsWhitespace(c: char) {
    c == '\t' || c == '\n' || c == '\U{B}' || c == '\U{C}' || c == '\r' || c == ' ' ||
    c == '\U{A0}' || c == '\U{1680}' || ('\U{2000}' <= c <= '\U{200A}') ||
    c == '\U{2028}' || c == '\U{2029}' || c == '\U{202F}' || c == '\U{205F}' ||
    c == '\U{3000}' || c == '\U{FEFF}'
  }

  /** `trimStart`: drop the leading white space. */
  function TrimStart(s: string): (r: string)
    ensures |r| <= |s| && r == s[|s| - |r|..]
    ensures forall i :: 0 <= i < |s| - |r| ==> IsWhitespace(s[i])
    ensures |r| > 0 ==> !IsWhitespace(r[0])
  {
    if |s| > 0 && IsWhitespace(s[0]) then TrimStart(s[1..]) else s
  }

  /** `trimEnd`: drop the trailing white space. */
  function TrimEnd(s: string): (r: string)
    ensures |r| <= |s| && r == s[..|r|]
    ensures forall i :: |r| <= i < |s| ==> IsWhitespace(s[i])
    ensures |r| > 0 ==> !IsWhitespace(r[|r| - 1])
  {
    if |s| > 0 && IsWhitespace(s[|s| - 1]) then TrimEnd(s[..|s| - 1]) else s
  }

  /** The first part after trimming: a text part loses its leading white space, an element is kept. */
  function TrimmedFirst(p: Part): Part {
    if p.Text? then Text(TrimStart(p.text)) else p
  }

  /** The last part after trimming: a text part loses its trailing white space, an element is kept. */
  function TrimmedLast(p: Part): Part {
    if p.Text? then Text(TrimEnd(p.text)) else p
  }

  /** The edge trimming as written: both edge parts are read before either is replaced, so
      with a single text part the second replacement overwrites the first. */
  function TrimEdgesAsWritten(content: seq<Part>): (r: seq<Part>)
    ensures |r| == |content|
    ensures forall i :: 0 < i < |r| - 1 ==> r[i] == content[i]
    ensures |content| > 1 ==> r[0] == TrimmedFirst(content[0]) && r[|r| - 1] == TrimmedLast(content[|r| - 1])
    ensures |content| == 1 ==> r[0] == TrimmedLast(content[0])
  {
    if |content| == 0 then content
    else
      var first := content[0];
      var last := content[|content| - 1];
      var afterFirst := if first.Text? then content[0 := Text(TrimStart(first.text))] else content;
      if last.Text? then afterFirst[|afterFirst| - 1 := Text(TrimEnd(last.text))] else afterFirst
  }

  /** The edge trimming as intended: the last part is trimmed as it stands after the first
      part was trimmed, so a single text part is trimmed on both sides. */
  function TrimEdges(content: seq<Part>): (r: seq<Part>)
    ensures |r| == |content|
    ensures forall i :: 0 < i < |r| - 1 ==> r[i] == content[i]
    ensures |content| > 1 ==> r[0] == TrimmedFirst(content[0]) && r[|r| - 1] == TrimmedLast(content[|r| - 1])
    ensures |content| == 1 ==> r[0] == TrimmedLast(TrimmedFirst(content[0]))
  {
    if |content| == 0 then content
    else if |content| == 1 then [TrimmedLast(TrimmedFirst(content[0]))]
    else [TrimmedFirst(content[0])] + content[1..|content| - 1] + [TrimmedLast(content[|content| - 1])]
  }

  /** After the intended trimming, the edge parts keep their kinds and neither edge text has
      white space at its outer side. */
  lemma TrimEdgesOuterSpace(content: seq<Part>)
    ensures var r := TrimEdges(content);
            |r| > 0 ==> (r[0].Text? <==> content[0].Text?) && (r[|r| - 1].Text? <==> content[|r| - 1].Text?)
    ensures var r := TrimEdges(content);
            |r| > 0 && r[0].Text? && |r[0].text| > 0 ==> !IsWhitespace(r[0].text[0])
    ensures var r := TrimEdges(content);
            |r| > 0 && r[|r| - 1].Text? && |r[|r| - 1].text| > 0 ==> !IsWhitespace(r[|r| - 1].text[|r[|r| - 1].text| - 1])
  {
    var r := TrimEdges(content);
    if |r| == 1 && r[0].Text? && |r[0].text| > 0 {
      var t := TrimStart(content[0].text);
      assert r[0].text == TrimEnd(t) == t[..|r[0].text|];
    }
  }

  /** The two trimmings differ only when exactly one text part is left. */
  lemma TrimEdgesAgreeOffSingleText(content: seq<Part>)
    requires !(|content| == 1 && content[0].Text?)
    ensures TrimEdgesAsWritten(content) == TrimEdges(content)
  {
    var a := TrimEdgesAsWritten(content);
    var b := TrimEdges(content);
    forall i | 0 <= i < |a| ensures a[i] == b[i] {
      if |content| == 1 {
        assert !content[0].Text?;
      }
    }
  }

  /** `PatchedMessageContent` as written: with links hidden and some content, drop the link
      parts and trim the edges. */
  function PatchedContentAsWritten(matcher: LinkMatcher, hideLinks: bool, parts: seq<Part>): (r: seq<Part>)
    ensures !hideLinks || |parts| == 0 ==> r == parts
    ensures hideLinks && |parts| > 0 ==>
              var kept := StripLinks(matcher, parts);
              |r| == |kept| &&
              (forall i :: 0 < i < |r| - 1 ==> r[i] == kept[i]) &&
              (forall i :: 0 <= i < |r| ==> !IsLinkPart(matcher, r[i])) &&
              (|kept| > 1 ==> r[0] == TrimmedFirst(kept[0]) && r[|r| - 1] == TrimmedLast(kept[|r| - 1])) &&
              (|kept| == 1 ==> r[0] == TrimmedLast(kept[0]))
  {
    if !hideLinks || |parts| == 0 then parts
    else
      var kept := StripLinks(matcher, parts);
      var r := TrimEdgesAsWritten(kept);
      assert |kept| > 0 ==> (r[0].Text? || r[0] == kept[0]) && (r[|r| - 1].Text? || r[|r| - 1] == kept[|r| - 1]) by {
        if |kept| == 1 {
          assert r[0] == TrimmedLast(kept[0]);
        } else if |kept| > 1 {
          assert r[0] == TrimmedFirst(kept[0]) && r[|r| - 1] == TrimmedLast(kept[|r| - 1]);
        }
      }
      TrimmedEdgesNotLinks(matcher, kept, r);
      r
  }

  /** Trimming keeps elements as they are and turns text into text, so when `kept` holds no
      link part neither does `r`. */
  lemma TrimmedEdgesNotLinks(matcher: LinkMatcher, kept: seq<Part>, r: seq<Part>)
    requires forall p :: p in kept ==> !IsLinkPart(matcher, p)
    requires |r| == |kept|
    requires forall i :: 0 < i < |r| - 1 ==> r[i] == kept[i]
    requires |r| > 0 ==> (r[0].Text? || r[0] == kept[0]) && (r[|r| - 1].Text? || r[|r| - 1] == kept[|r| - 1])
    ensures forall i :: 0 <= i < |r| ==> !IsLinkPart(matcher, r[i])
  {
    forall i | 0 <= i < |r| ensures !IsLinkPart(matcher, r[i]) {
      if 0 < i < |r| - 1 {
        assert r[i] in kept;
      } else if i == 0 {
        if !r[0].Text? { assert kept[0] in kept; }
      } else {
        if !r[i].Text? { assert kept[i] in kept; }
      }
    }
  }

  lemma TrimSample()
    ensures TrimEnd(" ok") == " ok"
    ensures TrimStart(" ok") == "ok"
    ensures TrimEnd("ok") == "ok"
  {
    assert !IsWhitespace('k') && !IsWhitespace('o') && IsWhitespace(' ');
    assert " ok"[1..] == "ok";
    assert TrimStart("ok") == "ok";
  }

  /** A lone text part left after the link is removed keeps its leading white space. */
  lemma SingleTextKeepsLeadingSpace(matcher: LinkMatcher, link: string)
    requires matcher(link).Some?
    ensures PatchedContentAsWritten(matcher, true, [Element(Some(link)), Text(" ok")]) == [Text(" ok")]
    ensures PatchedContent(matcher, true, [Element(Some(link)), Text(" ok")]) == [Text("ok")]
  {
    var parts := [Element(Some(link)), Text(" ok")];
    assert parts[1..] == [Text(" ok")];
    assert StripLinks(matcher, [Text(" ok")]) == [Text(" ok")];
    assert StripLinks(matcher, parts) == [Text(" ok")];
    TrimSample();
  }

  /** `PatchedMessageContent`, with the intended trimming: with links hidden and some content,
      the non-link parts survive in order, the middle ones untouched, and neither edge of the
      result starts or ends with white space. */
  function PatchedContent(matcher: LinkMatcher, hideLinks: bool, parts: seq<Part>): (r: seq<Part>)
    ensures !hideLinks || |parts| == 0 ==> r == parts
    ensures hideLinks && |parts| > 0 ==>
              |r| == |StripLinks(matcher, parts)| &&
              (forall i :: 0 < i < |r| - 1 ==> r[i] == StripLinks(matcher, parts)[i]) &&
              (forall i :: 0 <= i < |r| ==> !IsLinkPart(matcher, r[i]))
    ensures hideLinks && |r| > 0 && r[0].Text? && |r[0].text| > 0 ==> !IsWhitespace(r[0].text[0])
    ensures hideLinks && |parts| > 0 ==>
              var kept := StripLinks(matcher, parts);
              (|kept| > 1 ==> r[0] == TrimmedFirst(kept[0]) && r[|r| - 1] == TrimmedLast(kept[|r| - 1])) &&
              (|kept| == 1 ==> r[0] == TrimmedLast(TrimmedFirst(kept[0])))
  {
    if !hideLinks || |parts| == 0 then parts
    else
      var kept := StripLinks(matcher, parts);
      var r := TrimEdges(kept);
      TrimEdgesOuterSpace(kept);
      TrimmedEdgesNotLinks(matcher, kept, r);
      r
  }

  /** One markdown node of the message content, as far as the embeds read it. */
  datatype MarkupNode = LinkNode(target: string) | OtherNode

  /** The message links of the content: link nodes whose target matches, in order. */
  function MessageLinks(matcher: LinkMatcher, nodes: seq<MarkupNode>): (r: seq<LinkMatch>)
    ensures |r| <= |nodes|
    ensures forall l :: l in r <==> exists i :: 0 <= i < |nodes| && nodes[i].LinkNode? && matcher(nodes[i].target) == Some(l)
  {
    if |nodes| == 0 then []
    else
      var rest := MessageLinks(matcher, nodes[1..]);
      assert forall l :: (exists i :: 1 <= i < |nodes| && nodes[i].LinkNode? && matcher(nodes[i].target) == Some(l)) <==>
                         (exists j :: 0 <= j < |nodes[1..]| && nodes[1..][j].LinkNode? && matcher(nodes[1..][j].target) == Some(l)) by {
        forall l | exists i :: 1 <= i < |nodes| && nodes[i].LinkNode? && matcher(nodes[i].target) == Some(l)
          ensures exists j :: 0 <= j < |nodes[1..]| && nodes[1..][j].LinkNode? && matcher(nodes[1..][j].target) == Some(l)
        {
          var i :| 1 <= i < |nodes| && nodes[i].LinkNode? && matcher(nodes[i].target) == Some(l);
          assert nodes[1..][i - 1] == nodes[i];
        }
      }
      if nodes[0].LinkNode? && matcher(nodes[0].target).Some? then [matcher(nodes[0].target).value] + rest
      else rest
  }

  /** The links of concatenated content are the links of each piece, in order; a single node
      contributes its match when it is a matching link and nothing otherwise. */
  lemma {:induction false} MessageLinksAppend(matcher: LinkMatcher, a: seq<MarkupNode>, b: seq<MarkupNode>)
    ensures MessageLinks(matcher, a + b) == MessageLinks(matcher, a) + MessageLinks(matcher, b)
    ensures |a| == 1 && a[0].LinkNode? && matcher(a[0].target).Some? ==> MessageLinks(matcher, a) == [matcher(a[0].target).value]
    ensures |a| == 1 && !(a[0].LinkNode? && matcher(a[0].target).Some?) ==> MessageLinks(matcher, a) == []
    decreases |a|
  {
    if |a| == 0 {
      assert a + b == b;
    } else {
      assert (a + b)[0] == a[0];
      assert (a + b)[1..] == a[1..] + b;
      MessageLinksAppend(matcher, a[1..], b);
      if |a| == 1 {
        assert a[1..] == [];
      }
    }
  }

  /** What the accessories render: an embed per link, line breaks, then the other accessories. */
  datatype Accessory =
    | Embed(channelId: Snowflake, messageId: Snowflake, href: string, depth: int, compact: bool)
    | LineBreak
    | OtherAccessories

  function EmbedOf(link: LinkMatch, depth: int, compact: bool): Accessory {
    Embed(link.channelId, link.messageId, link.href, depth, compact)
  }

  /** Embeds for `links`, with a line break between consecutive ones. */
  function Embeds(links: seq<LinkMatch>, depth: int, compact: bool): (r: seq<Accessory>)
    ensures |r| == if |links| == 0 then 0 else 2 * |links| - 1
    ensures forall i :: 0 <= i < |links| ==> r[2 * i] == EmbedOf(links[i], depth, compact)
    ensures forall i :: 0 <= i < |links| - 1 ==> r[2 * i + 1] == LineBreak
  {
    if |links| == 0 then []
    else if |links| == 1 then [EmbedOf(links[0], depth, compact)]
    else
      var rest := Embeds(links[1..], depth, compact);
      var r := [EmbedOf(links[0], depth, compact), LineBreak] + rest;
      assert forall i :: 1 <= i < |links| ==> r[2 * i] == rest[2 * (i - 1)];
      forall i | 1 <= i < |links| - 1 ensures r[2 * i + 1] == LineBreak {
        var j := i - 1;
        assert r[2 * i + 1] == rest[2 * j + 1];
      }
      r
  }

  /** `PatchedMessageAccessories`: one embed per message link, one level deeper than the
      message itself (a top-level message has no depth and counts as 0), then the client's
      own accessories. */
  function Accessories(matcher: LinkMatcher, nodes: seq<MarkupNode>, depth: Option<int>, compact: bool): (r: seq<Accessory>)
    ensures var links := MessageLinks(matcher, nodes);
            |r| == (if |links| == 0 then 0 else 2 * |links| - 1) + 1 &&
            r[|r| - 1] == OtherAccessories &&
            (forall i :: 0 <= i < |links| ==>
               r[2 * i] == EmbedOf(links[i], (if depth.Some? then depth.value else 0) + 1, compact)) &&
            (forall i :: 0 <= i < |links| - 1 ==> r[2 * i + 1] == LineBreak)
  {
    var d := if depth.Some? then depth.value else 0;
    Embeds(MessageLinks(matcher, nodes), d + 1, compact) + [OtherAccessories]
  }

  /** The number of line breaks is one less than the number of embeds. */
  lemma {:induction false} BreaksBetweenEmbeds(links: seq<LinkMatch>, depth: int, compact: bool)
    ensures |links| > 0 ==> CountBreaks(Embeds(links, depth, compact)) == |links| - 1
    decreases |links|
  {
    if |links| > 1 {
      var rest := Embeds(links[1..], depth, compact);
      BreaksBetweenEmbeds(links[1..], depth, compact);
      assert Embeds(links, depth, compact) == [EmbedOf(links[0], depth, compact)] + ([LineBreak] + rest);
      CountBreaksAppend([EmbedOf(links[0], depth, compact)], [LineBreak] + rest);
      CountBreaksAppend([LineBreak], rest);
    } else if |links| == 1 {
      assert Embeds(links, depth, compact) == [EmbedOf(links[0], depth, compact)];
    }
  }

  function CountBreaks(items: seq<Accessory>): nat {
    if |items| == 0 then 0 else (if items[0].LineBreak? then 1 else 0) + CountBreaks(items[1..])
  }

  lemma {:induction false} CountBreaksAppend(xs: seq<Accessory>, ys: seq<Accessory>)
    ensures CountBreaks(xs + ys) == CountBreaks(xs) + CountBreaks(ys)
    decreases |xs|
  {
    if |xs| > 0 {
      assert (xs + ys)[1..] == xs[1..] + ys;
      CountBreaksAppend(xs[1..], ys);
    } else {
      assert xs + ys == ys;
    }
  }

  datatype ChannelRecord = ChannelRecord(id: Snowflake, guildId: Snowflake)

  /** What `MessageEmbed` renders. */
  datatype EmbedView =
    | Placeholder
    | Notice(kind: HelpMessageType, text: string, href: string)
    | Preview(channel: ChannelRecord, message: MessageRecord, depth: int)

  const MaximumDepthExceeded := "Maximum depth exceeded"
  const ChannelNotFound := "Channel could not be found"

  /** The render choice of `MessageEmbed`, tried in order: nothing cached yet, a cached
      failure, too deep, the link's channel unknown, else the preview. */
  function MessageEmbed(locale: Locale, channels: map<Snowflake, ChannelRecord>, cache: Option<CacheRecord>,
                        maxDepth: int, channelId: Snowflake, depth: int, href: string): (r: EmbedView)
    ensures r.Placeholder? <==> cache.None?
    ensures r.Preview? <==> cache.Some? && cache.value.Success? && depth <= maxDepth && channelId in channels
    ensures r.Preview? ==> r == Preview(channels[channelId], cache.value.message, depth)
    ensures cache.Some? && cache.value.Failure? ==> r == Notice(cache.value.errorType, cache.value.errorMessage, href)
    ensures r.Notice? && r.text == MaximumDepthExceeded && cache.value.Success? ==> depth > maxDepth
    ensures cache.Some? && cache.value.Success? && depth > maxDepth ==> r == Notice(Warning, MaximumDepthExceeded, href)
    ensures cache.Some? && cache.value.Success? && depth <= maxDepth && channelId !in channels ==>
              r == Notice(Warning, FormatErrorMessage(locale.notLoaded, ChannelNotFound), href)
  {
    match cache
    case None => Placeholder
    case Some(Failure(kind, text)) => Notice(kind, text, href)
    case Some(Success(message)) =>
      if depth > maxDepth then Notice(Warning, MaximumDepthExceeded, href)
      else if channelId !in channels then Notice(Warning, FormatErrorMessage(locale.notLoaded, ChannelNotFound), href)
      else Preview(channels[channelId], message, depth)
  }

  /** Depth equal to the maximum still shows the preview; one more does not. */
  lemma MaxDepthInclusive(locale: Locale, channels: map<Snowflake, ChannelRecord>, message: MessageRecord,
                          maxDepth: int, channelId: Snowflake, href: string)
    requires channelId in channels
    ensures MessageEmbed(locale, channels, Some(Success(message)), maxDepth, channelId, maxDepth, href).Preview?
    ensures MessageEmbed(locale, channels, Some(Success(message)), maxDepth, channelId, maxDepth + 1, href)
            == Notice(Warning, MaximumDepthExceeded, href)
  {
  }

  /** An embed produced by the accessories of a message at depth `d` sits at depth `d + 1`, so
      a chain of nested previews starting from a top-level message stops at `maxDepth`. */
  lemma NestedEmbedDepth(matcher: LinkMatcher, nodes: seq<MarkupNode>, d: nat, compact: bool, i: nat)
    requires i < |MessageLinks(matcher, nodes)|
    ensures Accessories(matcher, nodes, if d == 0 then None else Some(d), compact)[2 * i].depth == d + 1
  {
  }

  /** The slider's markers: every integer from `minValue` to `maxValue`, ascending. */
  function SliderMarkers(minValue: int, maxValue: int): (r: seq<int>)
    requires minValue <= maxValue + 1
    ensures |r| == maxValue - minValue + 1
    ensures forall i :: 0 <= i < |r| ==> r[i] == minValue + i
  {
    seq(maxValue - minValue + 1, i requires 0 <= i < maxValue - minValue + 1 => minValue + i)
  }

  /** The markers are ascending and hold exactly the integers of the range. */
  lemma MarkersCoverRange(minValue: int, maxValue: int)
    requires minValue <= maxValue + 1
    ensures forall x :: x in SliderMarkers(minValue, maxValue) <==> minValue <= x <= maxValue
    ensures forall i, j :: 0 <= i < j < |SliderMarkers(minValue, maxValue)| ==>
              SliderMarkers(minValue, maxValue)[i] < SliderMarkers(minValue, maxValue)[j]
  {
    var r := SliderMarkers(minValue, maxValue);
    forall x | minValue <= x <= maxValue ensures x in r {
      assert r[x - minValue] == x;
    }
  }

  /** The depth slider runs from 1 to 10. */
  lemma SettingsMarkers()
    ensures SliderMarkers(1, 10) == [1, 2, 3, 4, 5, 6, 7, 8, 9, 10]
  {
  }
}
