/** The recipient-list parser of app.py: the operator's free text becomes an ordered
    list of (email, company) records. */
module Recipients {
  import opened Wrappers
  import opened PyText
  import opened Seqs

  datatype Recipient = Recipient(email: string, company: string)

  /** The record separator exactly as app.py writes it, `"\\n"`: a backslash followed
      by the letter n. A real line break is not a separator. */
  const Separator: string := "\\n"

  /** The pieces the loop runs over: the whole input stripped once, then split on
      `Separator`. */
  function Lines(input: string): (lines: seq<string>)
    ensures |lines| >= 1
  {
    Split(Strip(input), Separator)
  }

  /** One piece: split on its first comma; a piece without a comma gives no recipient,
      otherwise both halves are stripped. */
  function ParseLine(line: string): (r: Option<Recipient>)
    ensures r.Some? <==> ',' in line
    ensures r.Some? ==> exists before, after ::
              && line == before + [','] + after
              && ',' !in before
              && r.value == Recipient(Strip(before), Strip(after))
  {
    var parts := SplitOnce(line, ',');
    if |parts| == 2 then
      assert line == parts[0] + [','] + parts[1];
      Some(Recipient(Strip(parts[0]), Strip(parts[1])))
    else None
  }

  /** What the parsing loop produces for `input`. */
  function Parsed(input: string): seq<Recipient>
  {
    FilterMap(ParseLine, Lines(input))
  }

  /** The loop of app.py that appends one record per piece holding a comma. */
  method ParseRecipients(input: string) returns (recipients: seq<Recipient>)
    ensures recipients == Parsed(input)
  {
    var lines := Split(Strip(input), Separator);
    recipients := [];
    var i := 0;
    while i < |lines|
      invariant 0 <= i <= |lines|
      invariant recipients == FilterMap(ParseLine, lines[..i])
    {
      var parts := SplitOnce(lines[i], ',');
      FilterMapStep(ParseLine, lines, i);
      if |parts| == 2 {
        recipients := recipients + [Recipient(Strip(parts[0]), Strip(parts[1]))];
      }
      i := i + 1;
    }
    assert lines[..i] == lines;
  }

  /** The email is the stripped text before the first comma of some piece and the
      company is the stripped rest, later commas included; pieces are used in order,
      each at most once, and exactly the pieces holding a comma give a recipient. */
  lemma ParsedFromLines(input: string)
    ensures var lines, rs, ks := Lines(input), Parsed(input), Kept(ParseLine, Lines(input));
            && |rs| == |ks| <= |lines|
            && (forall k, l :: 0 <= k < l < |ks| ==> ks[k] < ks[l])
            && (forall i :: 0 <= i < |lines| ==> (i in ks <==> ',' in lines[i]))
            && (forall k :: 0 <= k < |rs| ==> exists before, after ::
                  && lines[ks[k]] == before + [','] + after
                  && ',' !in before
                  && rs[k] == Recipient(Strip(before), Strip(after)))
  {
    var lines := Lines(input);
    FilterMapKept(ParseLine, lines);
    var rs, ks := Parsed(input), Kept(ParseLine, lines);
    forall k | 0 <= k < |rs|
      ensures exists before, after ::
                && lines[ks[k]] == before + [','] + after
                && ',' !in before
                && rs[k] == Recipient(Strip(before), Strip(after))
    {
      assert ParseLine(lines[ks[k]]) == Some(rs[k]);
    }
  }

  /** A piece without a comma yields nothing, so there are never more recipients than
      pieces, and there is a recipient only if some piece holds a comma. */
  lemma CommaLessLinesDropped(input: string)
    ensures |Parsed(input)| <= |Lines(input)|
    ensures Parsed(input) != [] ==> exists i :: 0 <= i < |Lines(input)| && ',' in Lines(input)[i]
  {
    var lines := Lines(input);
    FilterMapKept(ParseLine, lines);
    if Parsed(input) != [] {
      var i := Kept(ParseLine, lines)[0];
      assert i in Kept(ParseLine, lines);
      assert ',' in lines[i];
    }
  }

  /** Records keep the order of their pieces: parsing two runs of pieces one after the
      other gives the records of the first run followed by those of the second. */
  lemma ParsedKeepsOrder(first: seq<string>, second: seq<string>)
    ensures FilterMap(ParseLine, first + second)
            == FilterMap(ParseLine, first) + FilterMap(ParseLine, second)
  {
    FilterMapAppend(ParseLine, first, second);
  }

  /** Real line breaks do not separate records: an input whose stripped text has no
      backslash-n is one piece and gives at most one recipient, which holds everything
      after the first comma, line breaks included. */
  lemma RealNewlinesDoNotSeparate(input: string)
    requires !Contains(Strip(input), Separator)
    ensures Lines(input) == [Strip(input)]
    ensures |Parsed(input)| <= 1
    ensures |Parsed(input)| == 1 <==> ',' in Strip(input)
  {
    var line := Strip(input);
    SplitWithoutSeparator(line, Separator);
    assert Lines(input) == [line];
    assert [line][..0] == [];
    assert Parsed(input) == FilterMap(ParseLine, [line]);
  }
}
