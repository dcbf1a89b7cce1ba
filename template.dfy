/** The body renderer of app.py, `email_body_template.format(company=..., email=...)`,
    restricted to the part of Python's format-string language a cold-email template
    uses: literal text, the escapes `{{` and `}}`, and the bare fields `{company}` and
    `{email}`. Everything else is an error, which the send loop records as a failure. */
module Template {
  import opened Wrappers
  import opened PyText

  /** Why `str.format` raises. */
  datatype FormatError =
    | SingleCloseBrace        // a `}` that is not part of `}}`
    | SingleOpenBrace         // a `{` that ends the template
    | UnclosedField           // a `{` with no `}` after it
    | UnknownField(name: string)  // a field other than the two names passed in

  /** The two keyword arguments app.py passes: the recipient's company and the
      sender's own address. */
  datatype Field = Company | Email

  /** A template read as literal text and fields. */
  datatype Piece = Text(text: string) | Slot(field: Field)

  function FieldNamed(name: string): Option<Field>
  {
    if name == "company" then Some(Company)
    else if name == "email" then Some(Email)
    else None
  }

  /** One literal character written as a template: a brace is doubled. */
  function EscapeChar(c: char): string
  {
    if c == '{' then "{{" else if c == '}' then "}}" else [c]
  }

  /** Literal text written as a template: every brace doubled. */
  function Escape(s: string): string
  {
    if s == [] then [] else EscapeChar(s[0]) + Escape(s[1..])
  }

  /** The template text of one piece. */
  function UnparsePiece(p: Piece): string
  {
    match p
    case Text(s) => Escape(s)
    case Slot(Company) => "{company}"
    case Slot(Email) => "{email}"
  }

  /** The template text of a sequence of pieces. */
  function Unparse(ps: seq<Piece>): string
  {
    if ps == [] then [] else UnparsePiece(ps[0]) + Unparse(ps[1..])
  }

  lemma EscapeOne(c: char)
    ensures Escape([c]) == EscapeChar(c)
  {
    assert [c][1..] == [];
  }

  /** A field read from the template is the field's own text. */
  lemma FieldText(template: string, name: string, rest: string, f: Field)
    requires template != [] && template[0] == '{' && template[1..] == name + ['}'] + rest
    requires FieldNamed(name) == Some(f)
    ensures template == UnparsePiece(Slot(f)) + rest
  {
    assert template == "{" + name + "}" + rest;
  }

  /** Reads the piece at the start of a non-empty template, as one step of Python's
      format-string reader: a doubled brace is a literal brace, a lone `}` or a `{` at
      the end is an error, and a field runs from `{` to the next `}` and must be one of
      the two names passed in. What is read is exactly the text of the piece returned. */
  function Next(template: string): (r: Result<(Piece, string), FormatError>)
    requires template != []
    ensures r.Success? ==> template == UnparsePiece(r.value.0) + r.value.1
    ensures r.Success? ==> |r.value.1| < |template|
  {
    var t := template;
    EscapeOne(t[0]);
    if t[0] == '}' then
      if |t| >= 2 && t[1] == '}' then
        assert t == "}}" + t[2..];
        Success((Text("}"), t[2..]))
      else Failure(SingleCloseBrace)
    else if t[0] == '{' then
      if |t| == 1 then Failure(SingleOpenBrace)
      else if t[1] == '{' then
        assert t == "{{" + t[2..];
        Success((Text("{"), t[2..]))
      else
        var parts := SplitOnce(t[1..], '}');
        if |parts| == 1 then Failure(UnclosedField)
        else
          match FieldNamed(parts[0])
          case None => Failure(UnknownField(parts[0]))
          case Some(f) =>
            FieldText(t, parts[0], parts[1], f);
            Success((Slot(f), parts[1]))
    else
      assert t == [t[0]] + t[1..];
      Success((Text([t[0]]), t[1..]))
  }

  /** Reads the whole template from left to right and stops at the first error, as
      Python's formatter does. */
  function Parse(template: string): Result<seq<Piece>, FormatError>
    decreases |template|
  {
    if template == [] then Success([])
    else
      match Next(template)
      case Failure(e) => Failure(e)
      case Success((p, rest)) =>
        match Parse(rest)
        case Failure(e) => Failure(e)
        case Success(ps) => Success([p] + ps)
  }

  /** The text one piece contributes: `{company}` becomes the recipient's company and
      `{email}` the sender's address. */
  function Value(p: Piece, company: string, sender: string): string
  {
    match p
    case Text(s) => s
    case Slot(Company) => company
    case Slot(Email) => sender
  }

  function Fill(ps: seq<Piece>, company: string, sender: string): string
  {
    if ps == [] then [] else Value(ps[0], company, sender) + Fill(ps[1..], company, sender)
  }

  /** `template.format(company=company, email=sender)`. */
  function Render(template: string, company: string, sender: string): Result<string, FormatError>
  {
    match Parse(template)
    case Success(ps) => Success(Fill(ps, company, sender))
    case Failure(e) => Failure(e)
  }

  function Prepend(s: string, r: Result<string, FormatError>): Result<string, FormatError>
  {
    match r
    case Success(v) => Success(s + v)
    case Failure(e) => Failure(e)
  }

  lemma PrependTwice(a: string, b: string, r: Result<string, FormatError>)
    ensures Prepend(a, Prepend(b, r)) == Prepend(a + b, r)
  {
    match r
    case Success(v) => assert a + (b + v) == (a + b) + v;
    case Failure(_) =>
  }

  /** A template whose first piece is read successfully renders as that piece's value
      in front of the rendering of the rest. */
  lemma RenderNext(template: string, company: string, sender: string)
    requires template != [] && Next(template).Success?
    ensures Render(template, company, sender)
            == Prepend(Value(Next(template).value.0, company, sender), Render(Next(template).value.1, company, sender))
  {
    var p, rest := Next(template).value.0, Next(template).value.1;
    match Parse(rest)
    case Success(ps) => assert ([p] + ps)[1..] == ps;
    case Failure(_) =>
  }

  /** Splitting at the first occurrence of a character is unique. */
  lemma FirstSplitUnique(a: string, b: string, a': string, b': string, c: char)
    requires a + [c] + b == a' + [c] + b'
    requires c !in a && c !in a'
    ensures a == a' && b == b'
  {
    var s := a + [c] + b;
    assert s[|a|] == c && s[|a'|] == c;
    assert a == s[..|a|] == a';
    assert b == s[|a| + 1..] == b';
  }

  /** A field `{name}` followed by `after` is read as that field, when `name` holds no
      `}` and does not start with `{`. */
  lemma NextField(name: string, after: string)
    requires '}' !in name && (name == [] || name[0] != '{')
    ensures Next("{" + name + "}" + after) ==
            match FieldNamed(name)
            case None => Failure(UnknownField(name))
            case Some(f) => Success((Slot(f), after))
  {
    var t := "{" + name + "}" + after;
    assert t[1..] == name + ['}'] + after;
    assert '}' in t[1..];
    var parts := SplitOnce(t[1..], '}');
    FirstSplitUnique(parts[0], parts[1], name, after, '}');
  }

  /** One escaped character is read as that character. */
  lemma NextEscapeChar(c: char, rest: string)
    ensures Next(EscapeChar(c) + rest) == Success((Text([c]), rest))
  {
    var t := EscapeChar(c) + rest;
    if c == '{' || c == '}' {
      assert t[2..] == rest;
    } else {
      assert t[1..] == rest;
    }
  }

  /** Literal text behind its escapes renders as itself. */
  lemma {:induction false} RenderEscape(s: string, rest: string, company: string, sender: string)
    ensures Render(Escape(s) + rest, company, sender) == Prepend(s, Render(rest, company, sender))
    decreases |s|
  {
    if s == [] {
      assert Escape(s) + rest == rest;
      match Render(rest, company, sender)
      case Success(v) => assert s + v == v;
      case Failure(_) =>
    } else {
      var tail := Escape(s[1..]) + rest;
      assert Escape(s) + rest == EscapeChar(s[0]) + tail;
      RenderEscape(s[1..], rest, company, sender);
      NextEscapeChar(s[0], tail);
      RenderNext(EscapeChar(s[0]) + tail, company, sender);
      PrependTwice([s[0]], s[1..], Render(rest, company, sender));
      assert [s[0]] + s[1..] == s;
    }
  }

  /** A field written `{company}` or `{email}` renders as its value. */
  lemma RenderSlot(f: Field, rest: string, company: string, sender: string)
    ensures Render(UnparsePiece(Slot(f)) + rest, company, sender)
            == Prepend(Value(Slot(f), company, sender), Render(rest, company, sender))
  {
    var name := if f == Company then "company" else "email";
    assert UnparsePiece(Slot(f)) == "{" + name + "}";
    NextField(name, rest);
    RenderNext(UnparsePiece(Slot(f)) + rest, company, sender);
  }

  /** Rendering the template text of any pieces gives the pieces' values: `{company}`
      becomes the recipient's company, `{email}` the sender's address, and escaped text
      itself. */
  lemma {:induction false} RenderUnparse(ps: seq<Piece>, company: string, sender: string)
    ensures Render(Unparse(ps), company, sender) == Success(Fill(ps, company, sender))
    decreases |ps|
  {
    if ps != [] {
      var rest := Unparse(ps[1..]);
      RenderUnparse(ps[1..], company, sender);
      match ps[0]
      case Text(s) =>
        RenderEscape(s, rest, company, sender);
      case Slot(f) =>
        RenderSlot(f, rest, company, sender);
    }
  }

  /** Rendering succeeds only on such template text: a template that renders is the
      text of the pieces it was read as. */
  lemma {:induction false} ParseInverse(template: string)
    requires Parse(template).Success?
    ensures Unparse(Parse(template).value) == template
    decreases |template|
  {
    if template != [] {
      var p, rest := Next(template).value.0, Next(template).value.1;
      ParseInverse(rest);
      var ps := Parse(rest).value;
      assert Parse(template).value == [p] + ps;
      assert ([p] + ps)[1..] == ps;
    }
  }

  /** The two lemmas above together: a template renders exactly when it is the text of
      some pieces, and then to those pieces' values, whichever such pieces are taken. */
  lemma RenderSucceedsExactlyOnTemplates(template: string, company: string, sender: string)
    ensures Render(template, company, sender).Success? <==> exists ps :: Unparse(ps) == template
    ensures forall ps :: Unparse(ps) == template ==>
              Render(template, company, sender) == Success(Fill(ps, company, sender))
  {
    forall ps | Unparse(ps) == template
      ensures Render(template, company, sender) == Success(Fill(ps, company, sender))
    {
      RenderUnparse(ps, company, sender);
    }
    if Render(template, company, sender).Success? {
      ParseInverse(template);
    }
  }

  /** A template without braces renders unchanged. */
  lemma {:induction false} RenderWithoutFields(template: string, company: string, sender: string)
    requires '{' !in template && '}' !in template
    ensures Render(template, company, sender) == Success(template)
    decreases |template|
  {
    if template != [] {
      RenderWithoutFields(template[1..], company, sender);
      NextEscapeChar(template[0], template[1..]);
      assert EscapeChar(template[0]) + template[1..] == template;
      RenderNext(template, company, sender);
    }
  }

  /** `{email}` is the sender's own address and `{company}` the recipient's company. */
  lemma RenderFieldValues(company: string, sender: string)
    ensures Render("{email}", company, sender) == Success(sender)
    ensures Render("{company}", company, sender) == Success(company)
  {
    RenderSlot(Email, [], company, sender);
    assert UnparsePiece(Slot(Email)) + [] == "{email}";
    assert sender + [] == sender;
    RenderSlot(Company, [], company, sender);
    assert UnparsePiece(Slot(Company)) + [] == "{company}";
    assert company + [] == company;
  }

  /** Whatever follows the template text of some pieces renders behind the pieces'
      values, and fails exactly as it fails on its own: reading the template goes on
      across the fields that come before. */
  lemma {:induction false} RenderAfterPieces(ps: seq<Piece>, rest: string, company: string, sender: string)
    ensures Render(Unparse(ps) + rest, company, sender) == Prepend(Fill(ps, company, sender), Render(rest, company, sender))
    decreases |ps|
  {
    if ps == [] {
      assert Unparse(ps) + rest == rest;
      match Render(rest, company, sender)
      case Success(v) => assert Fill(ps, company, sender) + v == v;
      case Failure(_) =>
    } else {
      var tail := Unparse(ps[1..]) + rest;
      assert Unparse(ps) + rest == UnparsePiece(ps[0]) + tail;
      RenderAfterPieces(ps[1..], rest, company, sender);
      match ps[0] {
        case Text(t) => RenderEscape(t, tail, company, sender);
        case Slot(f) => RenderSlot(f, tail, company, sender);
      }
      PrependTwice(Value(ps[0], company, sender), Fill(ps[1..], company, sender), Render(rest, company, sender));
    }
  }

  /** A `}` that is not doubled makes rendering fail, whatever text and fields come
      before it. */
  lemma RenderStrayClose(before: seq<Piece>, after: string, company: string, sender: string)
    requires after == [] || after[0] != '}'
    ensures Render(Unparse(before) + ("}" + after), company, sender) == Failure(SingleCloseBrace)
  {
    RenderAfterPieces(before, "}" + after, company, sender);
  }

  /** A `{` at the very end makes rendering fail, whatever text and fields come before it. */
  lemma RenderTrailingOpen(before: seq<Piece>, company: string, sender: string)
    ensures Render(Unparse(before) + "{", company, sender) == Failure(SingleOpenBrace)
  {
    RenderAfterPieces(before, "{", company, sender);
  }

  /** A `{` that opens a field but is never closed makes rendering fail, whatever text
      and fields come before it. */
  lemma RenderUnclosed(before: seq<Piece>, after: string, company: string, sender: string)
    requires after != [] && after[0] != '{' && '}' !in after
    ensures Render(Unparse(before) + ("{" + after), company, sender) == Failure(UnclosedField)
  {
    assert ("{" + after)[1..] == after;
    RenderAfterPieces(before, "{" + after, company, sender);
  }

  /** Any field name other than `company` and `email` (an index, an attribute, a format
      spec, an unknown keyword) makes rendering fail with that name, whatever text and
      fields come before it. */
  lemma RenderUnknownField(before: seq<Piece>, name: string, after: string, company: string, sender: string)
    requires FieldNamed(name).None?
    requires '}' !in name && (name == [] || name[0] != '{')
    ensures Render(Unparse(before) + ("{" + name + "}" + after), company, sender) == Failure(UnknownField(name))
  {
    NextField(name, after);
    RenderAfterPieces(before, "{" + name + "}" + after, company, sender);
  }
}
