/** The text block drawn beside each card image: a header, a rule line, the
    stats and the wrapped descriptions and rules, for the base printing and
    then the evolved one. The older renderer (query/synthesis.py) has a
    shorter block without the evolved part. */
module TextLines {
  import opened Wrappers
  import opened Text
  import opened LineWrap
  import opened StdCards
  import LegacyEngine

  /** Every paragraph wrapped by `cut`, in order. */
  function WrapParagraphs(s: Separators, paragraphs: seq<string>, limit: nat): (lines: seq<string>)
    decreases |paragraphs|
  {
    if |paragraphs| == 0 then [] else Cut(s, paragraphs[0], limit) + WrapParagraphs(s, paragraphs[1..], limit)
  }

  /** `for text in texts: for line in text.split('\n'): result.extend(cut(line))`. */
  function WrapTexts(s: Separators, texts: seq<string>, limit: nat): (lines: seq<string>)
    decreases |texts|
  {
    if |texts| == 0 then [] else WrapParagraphs(s, Split(texts[0], "\n"), limit) + WrapTexts(s, texts[1..], limit)
  }

  lemma {:induction false} WrapParagraphsConcat(s: Separators, paragraphs: seq<string>, limit: nat)
    ensures Concat(WrapParagraphs(s, paragraphs, limit)) == Concat(paragraphs)
    ensures forall k :: 0 <= k < |WrapParagraphs(s, paragraphs, limit)| ==> WrapParagraphs(s, paragraphs, limit)[k] != ""
    decreases |paragraphs|
  {
    if |paragraphs| > 0 {
      var first := Cut(s, paragraphs[0], limit);
      var rest := WrapParagraphs(s, paragraphs[1..], limit);
      WrapParagraphsConcat(s, paragraphs[1..], limit);
      CutConcat(s, paragraphs[0], limit);
      CutNoEmptyLine(s, paragraphs[0], limit);
      ConcatAppend(first, rest);
      assert Concat(paragraphs) == paragraphs[0] + Concat(paragraphs[1..]);
    }
  }

  /** `texts` written back to back with their newlines removed. */
  function Unbroken(texts: seq<string>): string
    decreases |texts|
  {
    if |texts| == 0 then "" else Remove(texts[0], '\n') + Unbroken(texts[1..])
  }

  /** The wrapped lines hold exactly the characters of the texts, in order,
      less the newlines they were split at; no line is empty. */
  lemma {:induction false} WrapTextsFaithful(s: Separators, texts: seq<string>, limit: nat)
    ensures Concat(WrapTexts(s, texts, limit)) == Unbroken(texts)
    ensures forall k :: 0 <= k < |WrapTexts(s, texts, limit)| ==> WrapTexts(s, texts, limit)[k] != ""
    decreases |texts|
  {
    if |texts| > 0 {
      var parts := Split(texts[0], "\n");
      WrapParagraphsConcat(s, parts, limit);
      WrapTextsFaithful(s, texts[1..], limit);
      ConcatAppend(WrapParagraphs(s, parts, limit), WrapTexts(s, texts[1..], limit));
      SplitPartsFree(texts[0], "\n");
      forall k | 0 <= k < |parts|
        ensures '\n' !in parts[k]
      {
        ContainsChar(parts[k], '\n');
      }
      RemoveJoin(parts, '\n');
    }
  }

  /** The header: names, a blank, the series, a blank, and the faction with the types joined by '/'. */
  function Header(c: StdCard, faction: string, series: string): seq<string> {
    c.names + [" ", series, " ", Join([faction] + c.types, "/")]
  }

  /** One printing: a rule of `limit` dashes, the stats tuple, a blank, the
      wrapped descriptions, a blank, the wrapped rules. */
  function Printing(limit: nat, stats: Stats, descs: seq<string>, rules: seq<string>): seq<string> {
    [Repeat('-', limit), StatsRepr(stats), " "] + WrapTexts(Current, descs, limit) + [" "] + WrapTexts(Current, rules, limit)
  }

  /** `_make_text_lines(card, line_size_max)` as written. Joining a missing
      faction raises TypeError; reading `card['evo_attributes']` raises KeyError
      when the card has no evolved printing; a missing series is kept in the
      list and fails (TypeError) when the lines are measured. */
  function MakeTextLines(c: StdCard, limit: nat): (r: Result<seq<string>>)
    ensures r.Crash? <==> c.faction.None? || !HasEvolved(c) || c.series.None?
    ensures r.Crash? && c.faction.Some? && c.evoAttributes.None? ==> r.fault == KeyError
    ensures r.Ok? ==>
      && |r.value| > |c.names| + 3 && r.value[..|c.names|] == c.names
      && r.value[|c.names| + 1] == c.series.value && r.value[|c.names| + 3] == Join([c.faction.value] + c.types, "/")
    ensures r.Ok? ==>
      && r.value[|c.names|] == " " && r.value[|c.names| + 2] == " "
      && r.value[|c.names| + 4..] == Printing(limit, c.attributes, c.descs, c.rules)
           + Printing(limit, c.evoAttributes.value, c.evoDescs.value, c.evoRules.value)
  {
    if c.faction.None? then Crash(TypeError)
    else if !HasEvolved(c) then Crash(KeyError)
    else if c.series.None? then Crash(TypeError)
    else
      var rest := Printing(limit, c.attributes, c.descs, c.rules)
        + Printing(limit, c.evoAttributes.value, c.evoDescs.value, c.evoRules.value);
      HeaderParts(c, c.faction.value, c.series.value, rest);
      Ok(Header(c, c.faction.value, c.series.value) + rest)
  }

  /** Where the header's lines sit in a block, and where the printings start. */
  lemma HeaderParts(c: StdCard, faction: string, series: string, rest: seq<string>)
    ensures var lines := Header(c, faction, series) + rest;
      var n := |c.names|;
      && |lines| == n + 4 + |rest| && lines[..n] == c.names
      && lines[n] == " " && lines[n + 1] == series && lines[n + 2] == " "
      && lines[n + 3] == Join([faction] + c.types, "/") && lines[n + 4..] == rest
  {
    var lines := Header(c, faction, series) + rest;
    var n := |c.names|;
    assert lines[..n] == c.names;
    assert lines[n + 4..] == rest;
  }

  /** A card without an evolved printing never gets a text block: every card
      the iyingdi provider produces lacks the evolved fields, so its search
      results cannot be drawn. */
  lemma NoEvolvedNoLines(c: StdCard, limit: nat)
    requires c.faction.Some? && c.evoAttributes.None?
    ensures MakeTextLines(c, limit) == Crash(KeyError)
  {
  }

  /** The evidently intended block: the evolved part is drawn only when the
      card has one. */
  function MakeTextLinesGuarded(c: StdCard, limit: nat): (r: Result<seq<string>>)
    ensures r.Crash? <==> c.faction.None? || c.series.None?
    ensures r.Ok? ==>
      && |r.value| > |c.names| + 3 && r.value[..|c.names|] == c.names
      && r.value[|c.names| + 1] == c.series.value && r.value[|c.names| + 3] == Join([c.faction.value] + c.types, "/")
    ensures r.Ok? ==>
      && r.value[|c.names|] == " " && r.value[|c.names| + 2] == " "
      && r.value[|c.names| + 4..] == Printing(limit, c.attributes, c.descs, c.rules)
           + (if HasEvolved(c) then Printing(limit, c.evoAttributes.value, c.evoDescs.value, c.evoRules.value) else [])
    ensures HasEvolved(c) ==> r == MakeTextLines(c, limit)
  {
    if c.faction.None? || c.series.None? then Crash(TypeError)
    else
      var rest := Printing(limit, c.attributes, c.descs, c.rules)
        + (if HasEvolved(c) then Printing(limit, c.evoAttributes.value, c.evoDescs.value, c.evoRules.value) else []);
      HeaderParts(c, c.faction.value, c.series.value, rest);
      Ok(Header(c, c.faction.value, c.series.value) + rest)
  }

  /** The description part of a printing carries the descriptions' text,
      newlines aside, between the stats blank and the blank before the rules. */
  lemma PrintingFaithful(limit: nat, stats: Stats, descs: seq<string>, rules: seq<string>)
    ensures var p := Printing(limit, stats, descs, rules);
      var d := WrapTexts(Current, descs, limit);
      p[..3] == [Repeat('-', limit), StatsRepr(stats), " "] &&
      Concat(p[3..3 + |d|]) == Unbroken(descs) &&
      p[3 + |d|] == " " &&
      Concat(p[4 + |d|..]) == Unbroken(rules)
  {
    var d := WrapTexts(Current, descs, limit);
    var q := WrapTexts(Current, rules, limit);
    WrapTextsFaithful(Current, descs, limit);
    WrapTextsFaithful(Current, rules, limit);
    PrintingParts([Repeat('-', limit), StatsRepr(stats), " "], d, q);
  }

  /** Where the parts of a printing sit: three heading lines, the
      descriptions, a blank, the rules. */
  lemma PrintingParts(h: seq<string>, d: seq<string>, q: seq<string>)
    requires |h| == 3
    ensures var p := h + d + [" "] + q;
      p[..3] == h && p[3..3 + |d|] == d && p[3 + |d|] == " " && p[4 + |d|..] == q
  {
    var p := h + d + [" "] + q;
    assert p[3..3 + |d|] == d;
    assert p[4 + |d|..] == q;
  }

  /** `make_text_lines(card, line_size_max)` of the older renderer: names, a
      blank, the series, a blank, faction and varieties joined by '/', a blank,
      the wrapped descriptions, a blank, the wrapped rules. Its records are
      complete strings, so nothing here can fail. */
  function LegacyTextLines(names: seq<string>, series: string, faction: string, varieties: seq<string>,
                           descs: seq<string>, rules: seq<string>, limit: nat): (lines: seq<string>)
    ensures |lines| >= |names| + 6 && lines[..|names|] == names
    ensures lines[|names|..|names| + 5] == [" ", series, " ", Join([faction] + varieties, "/"), " "]
  {
    names + [" ", series, " ", Join([faction] + varieties, "/"), " "]
      + LegacyWrap(descs, limit) + [" "] + LegacyWrap(rules, limit)
  }

  /** After the five heading lines, the older block holds the descriptions'
      text, one blank, and the rules' text, newlines aside. */
  lemma {:induction false} LegacyTextLinesTail(names: seq<string>, series: string, faction: string, varieties: seq<string>,
                            descs: seq<string>, rules: seq<string>, limit: nat)
    ensures var all := LegacyTextLines(names, series, faction, varieties, descs, rules, limit);
      Concat(all[|names| + 5..]) == Unbroken(descs) + " " + Unbroken(rules)
  {
    var head := names + [" ", series, " ", Join([faction] + varieties, "/"), " "];
    BlockTail(head, LegacyWrap(descs, limit), LegacyWrap(rules, limit));
  }

  /** What follows a heading of `head`: `d`, a blank, then `q`. */
  lemma {:induction false} BlockTail(head: seq<string>, d: seq<string>, q: seq<string>)
    ensures Concat((head + d + [" "] + q)[|head|..]) == Concat(d) + " " + Concat(q)
  {
    assert (head + d + [" "] + q)[|head|..] == d + ([" "] + q);
    ConcatAppend([" "], q);
    assert Concat([" "]) == " " by {
      assert [" "][1..] == [];
    }
    ConcatAppend(d, [" "] + q);
  }

  /** The older renderer's wrapping: the corrected loop, which is what the
      loop as written returns whenever it returns (`LegacyTextsAsWritten`). */
  function LegacyWrap(texts: seq<string>, limit: nat): (lines: seq<string>)
    ensures Concat(lines) == Unbroken(texts)
  {
    WrapTextsFaithful(Legacy, texts, limit);
    WrapTexts(Legacy, texts, limit)
  }

  /** The older loop as written over each paragraph, in order; the first
      paragraph that stalls stalls the renderer. */
  function LegacyParagraphsAsWritten(paragraphs: seq<string>, limit: nat): (r: Result<seq<string>>)
    ensures r.Ok? <==> forall k :: 0 <= k < |paragraphs| ==> LegacyCutAsWritten(paragraphs[k], limit).Ok?
    ensures r.Ok? ==> r.value == WrapParagraphs(Legacy, paragraphs, limit)
    ensures r.Crash? ==> r.fault == Stall
    decreases |paragraphs|
  {
    if |paragraphs| == 0 then Ok([])
    else
      AllShift(paragraphs, p => LegacyCutAsWritten(p, limit).Ok?);
      var first := LegacyCutAsWritten(paragraphs[0], limit);
      var rest := LegacyParagraphsAsWritten(paragraphs[1..], limit);
      if first.Crash? then first
      else if rest.Crash? then rest
      else Ok(first.value + rest.value)
  }

  /** `for text in texts: for line in text.split('\n'): result.extend(cut(line))`
      with the older loop as written. */
  function LegacyTextsAsWritten(texts: seq<string>, limit: nat): (r: Result<seq<string>>)
    ensures r.Ok? <==> forall k :: 0 <= k < |texts| ==> LegacyParagraphsAsWritten(Split(texts[k], "\n"), limit).Ok?
    ensures r.Ok? ==> r.value == WrapTexts(Legacy, texts, limit)
    ensures r.Crash? ==> r.fault == Stall
    decreases |texts|
  {
    if |texts| == 0 then Ok([])
    else
      AllShift(texts, t => LegacyParagraphsAsWritten(Split(t, "\n"), limit).Ok?);
      var first := LegacyParagraphsAsWritten(Split(texts[0], "\n"), limit);
      var rest := LegacyTextsAsWritten(texts[1..], limit);
      if first.Crash? then first
      else if rest.Crash? then rest
      else Ok(first.value + rest.value)
  }

  /** A property holds of every element exactly when it holds of the first
      and of every later one. */
  lemma AllShift<T>(s: seq<T>, P: T -> bool)
    requires |s| > 0
    ensures (forall k :: 0 <= k < |s| ==> P(s[k])) <==> P(s[0]) && forall k :: 0 <= k < |s[1..]| ==> P(s[1..][k])
  {
    assert forall k :: 1 <= k < |s| ==> s[k] == s[1..][k - 1];
  }

  /** The older renderer on a record of the legacy engine, in the order the
      lines are built. A missing faction fails the '/'-join (TypeError). A
      description or rule line on which the older loop stalls never lets
      the renderer return. A missing series becomes a `None` line that fails
      (TypeError) when the block is measured. */
  function RecordTextLines(r: LegacyEngine.Record, limit: nat): (lines: Result<seq<string>>)
    ensures r.faction.None? ==> lines == Crash(TypeError)
    ensures r.faction.Some? && (LegacyTextsAsWritten(r.descs, limit).Crash? || LegacyTextsAsWritten(r.rules, limit).Crash?) ==>
      lines == Crash(Stall)
    ensures lines.Ok? <==>
      r.faction.Some? && r.series.Some? && LegacyTextsAsWritten(r.descs, limit).Ok? && LegacyTextsAsWritten(r.rules, limit).Ok?
    ensures lines.Crash? ==> lines.fault == TypeError || lines.fault == Stall
    ensures lines.Ok? ==> var n := |r.names|;
      && |lines.value| >= n + 6
      && lines.value[..n] == r.names
      && lines.value[n + 1] == r.series.value
      && lines.value[n + 3] == Join([r.faction.value] + r.varieties, "/")
      && Concat(lines.value[n + 5..]) == Unbroken(r.descs) + " " + Unbroken(r.rules)
  {
    if r.faction.None? then Crash(TypeError)
    else
      var d :- LegacyTextsAsWritten(r.descs, limit);
      var q :- LegacyTextsAsWritten(r.rules, limit);
      if r.series.None? then Crash(TypeError)
      else
        var block := LegacyTextLines(r.names, r.series.value, r.faction.value, r.varieties, r.descs, r.rules, limit);
        RecordBlock(r.names, r.series.value, r.faction.value, r.varieties, r.descs, r.rules, limit);
        Ok(block)
  }

  /** The heading and tail facts of the older block, in the form the record
      renderer states them. */
  lemma RecordBlock(names: seq<string>, series: string, faction: string, varieties: seq<string>,
                    descs: seq<string>, rules: seq<string>, limit: nat)
    ensures var lines := LegacyTextLines(names, series, faction, varieties, descs, rules, limit);
      var n := |names|;
      && |lines| >= n + 6
      && lines[..n] == names
      && lines[n + 1] == series
      && lines[n + 3] == Join([faction] + varieties, "/")
      && Concat(lines[n + 5..]) == Unbroken(descs) + " " + Unbroken(rules)
  {
    var lines := LegacyTextLines(names, series, faction, varieties, descs, rules, limit);
    var n := |names|;
    LegacyTextLinesTail(names, series, faction, varieties, descs, rules, limit);
    assert lines[n..n + 5][1] == lines[n + 1];
    assert lines[n..n + 5][3] == lines[n + 3];
  }

  /** A record whose first description is "(" followed by enough 'a's never
      gets a text block from the older renderer. */
  lemma RecordStalls(r: LegacyEngine.Record, limit: nat)
    requires r.faction.Some? && |r.descs| >= 1
    requires |r.descs[0]| >= 1 && r.descs[0][0] == '(' && 2 * limit <= |r.descs[0]|
    requires forall k :: 1 <= k < |r.descs[0]| ==> r.descs[0][k] == 'a'
    ensures RecordTextLines(r, limit) == Crash(Stall)
  {
    var t := r.descs[0];
    assert '\n' !in t by {
      forall k | 0 <= k < |t| ensures t[k] != '\n' { }
    }
    SplitNoSep(t, '\n');
    assert "\n" == ['\n'];
    LegacyCutStalls(t, limit);
    assert LegacyParagraphsAsWritten([t], limit).Crash?;
  }
}
