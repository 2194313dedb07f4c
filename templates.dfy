/** The part of `str.format(**fields)` the label template uses: literal text
    and plain named replacement fields `{Name}`, with `{{` and `}}` standing
    for literal braces. */
module Templates {
  import opened Wrappers

  /** A template after tokenisation: one piece per literal character or per
      replacement field. */
  datatype Piece = Char(c: char) | Field(name: string)

  type Template = seq<Piece>

  /** The only way rendering a plain template can fail: `KeyError(name)`. */
  datatype RenderError = MissingKey(name: string)

  /** Characters that end a plain field name: a brace, or the start of a
      conversion (`!`), a format spec (`:`), an attribute (`.`) or an index (`[`). */
  predicate Reserved(c: char) {
    c == '{' || c == '}' || c == '!' || c == ':' || c == '.' || c == '['
  }

  /** A name `str.format` looks up among its keyword arguments: non-empty, no
      reserved character, and not all ASCII digits (those are positional).
      Names made only of other Unicode decimal digits, which `str.format`
      also treats as positional, are not excluded. */
  predicate PlainName(n: string) {
    && |n| > 0
    && (forall i | 0 <= i < |n| :: !Reserved(n[i]))
    && !(forall i | 0 <= i < |n| :: '0' <= n[i] <= '9')
  }

  predicate PlainTemplate(t: Template) {
    forall i | 0 <= i < |t| && t[i].Field? :: PlainName(t[i].name)
  }

  /** The field names of `t`, in order and with repetitions. */
  function FieldNames(t: Template): seq<string> {
    if t == [] then []
    else
      match t[0]
      case Char(_) => FieldNames(t[1..])
      case Field(n) => [n] + FieldNames(t[1..])
  }

  /** A name is in the field-name list exactly when some piece is that field. */
  lemma {:induction false} FieldNamesOccur(t: Template)
    ensures forall n :: n in FieldNames(t) <==> exists i | 0 <= i < |t| :: t[i] == Field(n)
  {
    if t != [] {
      FieldNamesOccur(t[1..]);
      assert forall i | 1 <= i < |t| :: t[i] == t[1..][i - 1];
      forall n | exists i | 0 <= i < |t| :: t[i] == Field(n)
        ensures n in FieldNames(t)
      {
        var i :| 0 <= i < |t| && t[i] == Field(n);
        if i > 0 {
          assert t[1..][i - 1] == Field(n);
        }
      }
    }
  }

  /** Every field of `t` names a key of `m`. */
  predicate AllPresent(t: Template, m: map<string, string>) {
    forall i | 0 <= i < |t| && t[i].Field? :: t[i].name in m
  }

  /** `template.format(**m)`, left to right: literal characters are copied,
      each field is replaced by its value, and the first field whose name is
      not a key of `m` raises `KeyError` for that name. */
  function Render(t: Template, m: map<string, string>): (r: Result<string, RenderError>)
    ensures r.Ok? <==> AllPresent(t, m)
    ensures r.Err? ==> r.error.name !in m && exists i | 0 <= i < |t| :: t[i] == Field(r.error.name)
  {
    if t == [] then Ok("")
    else
      assert forall i | 1 <= i < |t| :: t[i] == t[1..][i - 1];
      match t[0]
      case Char(c) =>
        (match Render(t[1..], m)
         case Ok(s) => Ok([c] + s)
         case Err(e) => Err(e))
      case Field(n) =>
        if n !in m then Err(MissingKey(n))
        else
          match Render(t[1..], m)
          case Ok(s) => Ok(m[n] + s)
          case Err(e) => Err(e)
  }

  /** A template of literal characters only. */
  function Literal(s: string): (t: Template)
    ensures |t| == |s| && forall i | 0 <= i < |s| :: t[i] == Char(s[i])
  {
    seq(|s|, i requires 0 <= i < |s| => Char(s[i]))
  }

  // ---------------------------------------------------------------------
  // What rendering does, piece by piece

  /** Rendering distributes over concatenation of templates; the error, if
      any, is the first one from the left. */
  lemma {:induction false} RenderAppend(t1: Template, t2: Template, m: map<string, string>)
    ensures Render(t1 + t2, m) ==
      match Render(t1, m)
      case Err(e) => Err(e)
      case Ok(s1) =>
        match Render(t2, m)
        case Err(e) => Err(e)
        case Ok(s2) => Ok(s1 + s2)
  {
    if t1 != [] {
      assert (t1 + t2)[1..] == t1[1..] + t2;
      RenderAppend(t1[1..], t2, m);
      match t1[0]
      case Char(c) =>
        if Render(t1[1..], m).Ok? && Render(t2, m).Ok? {
          var s1, s2 := Render(t1[1..], m).value, Render(t2, m).value;
          assert [c] + (s1 + s2) == ([c] + s1) + s2;
        }
      case Field(n) =>
        if n in m && Render(t1[1..], m).Ok? && Render(t2, m).Ok? {
          var s1, s2 := Render(t1[1..], m).value, Render(t2, m).value;
          assert m[n] + (s1 + s2) == (m[n] + s1) + s2;
        }
    } else {
      assert t1 + t2 == t2;
      if Render(t2, m).Ok? {
        assert "" + Render(t2, m).value == Render(t2, m).value;
      }
    }
  }

  /** A successful rendering of three consecutive parts is the three partial
      renderings, side by side. */
  lemma RenderThree(t1: Template, t2: Template, t3: Template, m: map<string, string>)
    requires Render(t1 + t2 + t3, m).Ok?
    ensures Render(t1, m).Ok? && Render(t2, m).Ok? && Render(t3, m).Ok?
    ensures Render(t1 + t2 + t3, m).value ==
      Render(t1, m).value + Render(t2, m).value + Render(t3, m).value
  {
    RenderAppend(t1 + t2, t3, m);
    RenderAppend(t1, t2, m);
  }

  /** Literal text renders as itself, whatever the row. */
  lemma {:induction false} RenderLiteral(s: string, m: map<string, string>)
    ensures Render(Literal(s), m) == Ok(s)
  {
    if s != [] {
      assert Literal(s)[1..] == Literal(s[1..]);
      RenderLiteral(s[1..], m);
      assert s == [s[0]] + s[1..];
    }
  }

  /** On success, every occurrence of a field -- the second `{Lote}` as much
      as the first -- is replaced by the row's value for it, with the text
      rendered from the pieces before and after it on either side. */
  lemma RenderAt(t: Template, m: map<string, string>, i: nat)
    requires i < |t| && t[i].Field? && Render(t, m).Ok?
    ensures Render(t[..i], m).Ok? && Render(t[i + 1..], m).Ok?
    ensures Render(t, m).value ==
      Render(t[..i], m).value + m[t[i].name] + Render(t[i + 1..], m).value
  {
    assert t == t[..i] + ([t[i]] + t[i + 1..]);
    RenderAppend(t[..i], [t[i]] + t[i + 1..], m);
    RenderAppend([t[i]], t[i + 1..], m);
    assert Render([t[i]], m) == Ok(m[t[i].name] + "");
    assert m[t[i].name] + "" == m[t[i].name];
  }

  /** The literal characters of a template survive rendering unchanged: the
      rendered text around a literal character is split by exactly that character. */
  lemma RenderCharAt(t: Template, m: map<string, string>, i: nat)
    requires i < |t| && t[i].Char? && Render(t, m).Ok?
    ensures Render(t[..i], m).Ok? && Render(t[i + 1..], m).Ok?
    ensures Render(t, m).value ==
      Render(t[..i], m).value + [t[i].c] + Render(t[i + 1..], m).value
  {
    assert t == t[..i] + ([t[i]] + t[i + 1..]);
    RenderAppend(t[..i], [t[i]] + t[i + 1..], m);
    RenderAppend([t[i]], t[i + 1..], m);
    assert Render([t[i]], m) == Ok([t[i].c] + "");
  }

  /** `KeyError(n)` is raised exactly when `n` names the first field, from
      the left, whose name is not a key of `m`. */
  lemma RenderFailsAtFirstMissing(t: Template, m: map<string, string>, n: string)
    ensures Render(t, m) == Err(MissingKey(n)) <==>
      exists i | 0 <= i < |t| :: t[i] == Field(n) && n !in m && AllPresent(t[..i], m)
  {
    if Render(t, m) == Err(MissingKey(n)) {
      FailureIsFirstMissing(t, m, n);
    }
    if i :| 0 <= i < |t| && t[i] == Field(n) && n !in m && AllPresent(t[..i], m) {
      FirstMissingFails(t, m, n, i);
    }
  }

  lemma {:induction false} FailureIsFirstMissing(t: Template, m: map<string, string>, n: string)
    requires Render(t, m) == Err(MissingKey(n))
    ensures exists i | 0 <= i < |t| :: t[i] == Field(n) && n !in m && AllPresent(t[..i], m)
  {
    if t[0] == Field(n) && n !in m {
      assert AllPresent(t[..0], m);
    } else {
      assert Render(t[1..], m) == Err(MissingKey(n));
      FailureIsFirstMissing(t[1..], m, n);
      var j :| 0 <= j < |t[1..]| && t[1..][j] == Field(n) && n !in m && AllPresent(t[1..][..j], m);
      assert t[..j + 1] == [t[0]] + t[1..][..j];
      assert t[j + 1] == Field(n) && AllPresent(t[..j + 1], m);
    }
  }

  lemma {:induction false} FirstMissingFails(t: Template, m: map<string, string>, n: string, i: nat)
    requires i < |t| && t[i] == Field(n) && n !in m && AllPresent(t[..i], m)
    ensures Render(t, m) == Err(MissingKey(n))
  {
    if i > 0 {
      assert t[0] == t[..i][0];
      assert t[1..][..i - 1] == t[..i][1..];
      assert t[1..][i - 1] == Field(n) && AllPresent(t[1..][..i - 1], m);
      FirstMissingFails(t[1..], m, n, i - 1);
    }
  }

  /** Only the values of the template's own field names matter: two rows that
      agree on those render the same label (or fail with the same name). */
  lemma {:induction false} RenderDependsOnlyOnFields(t: Template, m1: map<string, string>, m2: map<string, string>)
    requires forall i | 0 <= i < |t| && t[i].Field? ::
      (t[i].name in m1 <==> t[i].name in m2) && (t[i].name in m1 ==> m1[t[i].name] == m2[t[i].name])
    ensures Render(t, m1) == Render(t, m2)
  {
    if t != [] {
      assert forall i | 1 <= i < |t| :: t[i] == t[1..][i - 1];
      RenderDependsOnlyOnFields(t[1..], m1, m2);
    }
  }

  /** Field names of a concatenation are the field names of each part, in order. */
  lemma {:induction false} FieldNamesAppend(t1: Template, t2: Template)
    ensures FieldNames(t1 + t2) == FieldNames(t1) + FieldNames(t2)
  {
    if t1 != [] {
      assert (t1 + t2)[1..] == t1[1..] + t2;
      FieldNamesAppend(t1[1..], t2);
    } else {
      assert t1 + t2 == t2;
    }
  }

  /** Literal text has no fields. */
  lemma {:induction false} FieldNamesLiteral(s: string)
    ensures FieldNames(Literal(s)) == []
  {
    if s != [] {
      assert Literal(s)[1..] == Literal(s[1..]);
      FieldNamesLiteral(s[1..]);
    }
  }

  /** On success, the value of every field name of the template appears,
      verbatim and contiguous, in the rendered text. */
  lemma RenderContains(t: Template, m: map<string, string>, n: string)
    requires n in FieldNames(t) && Render(t, m).Ok?
    ensures n in m
    ensures exists pre: string, post: string :: Render(t, m).value == pre + m[n] + post
  {
    FieldNamesOccur(t);
    var i :| 0 <= i < |t| && t[i] == Field(n);
    RenderAt(t, m, i);
    var pre, post := Render(t[..i], m).value, Render(t[i + 1..], m).value;
    assert Render(t, m).value == pre + m[n] + post;
  }

  /** The `KeyError` names the first entry of the template's field-name list
      that is not a key of `m`. */
  lemma {:induction false} RenderErrorIsFirstMissingName(t: Template, m: map<string, string>)
    requires Render(t, m).Err?
    ensures exists p | 0 <= p < |FieldNames(t)| ::
      && FieldNames(t)[p] == Render(t, m).error.name
      && Render(t, m).error.name !in m
      && forall q | 0 <= q < p :: FieldNames(t)[q] in m
  {
    assert t != [];
    var n := Render(t, m).error.name;
    var ns := FieldNames(t);
    match t[0]
    case Char(_) =>
      assert Render(t, m) == Render(t[1..], m);
      RenderErrorIsFirstMissingName(t[1..], m);
      assert ns == FieldNames(t[1..]);
      var p :| 0 <= p < |ns| && ns[p] == n && n !in m && forall q | 0 <= q < p :: ns[q] in m;
    case Field(k) =>
      if k in m {
        assert Render(t, m) == Render(t[1..], m);
        RenderErrorIsFirstMissingName(t[1..], m);
        var rest := FieldNames(t[1..]);
        var p :| 0 <= p < |rest| && rest[p] == n && n !in m && forall q | 0 <= q < p :: rest[q] in m;
        assert ns == [k] + rest;
        assert ns[p + 1] == n && forall q | 0 <= q < p + 1 :: ns[q] in m;
      } else {
        assert ns[0] == n;
      }
  }

  // ---------------------------------------------------------------------
  // From template text to pieces and back

  /** The index of the first reserved character in `s` from `i` on, or `|s|`. */
  function NameEnd(s: string, i: nat): (j: nat)
    requires i <= |s|
    ensures i <= j <= |s|
    ensures forall k | i <= k < j :: !Reserved(s[k])
    ensures j < |s| ==> Reserved(s[j])
    decreases |s| - i
  {
    if i == |s| || Reserved(s[i]) then i else NameEnd(s, i + 1)
  }

  function Prepend(p: Piece, rest: Option<Template>): Option<Template> {
    match rest
    case Some(t) => Some([p] + t)
    case None => None
  }

  /** Splits template text into pieces, the way `str.format` reads it: `{{`
      and `}}` are literal braces, `{Name}` is a field; `None` when the text
      holds a stray brace or a field outside the plain form. */
  function Tokenize(s: string): (r: Option<Template>)
    ensures r.Some? ==> PlainTemplate(r.value)
    decreases |s|
  {
    if s == [] then Some([])
    else if s[0] == '{' && |s| > 1 && s[1] == '{' then Prepend(Char('{'), Tokenize(s[2..]))
    else if s[0] == '}' && |s| > 1 && s[1] == '}' then Prepend(Char('}'), Tokenize(s[2..]))
    else if s[0] == '}' then None
    else if s[0] == '{' then
      var j := NameEnd(s, 1);
      if j < |s| && s[j] == '}' && PlainName(s[1..j]) then Prepend(Field(s[1..j]), Tokenize(s[j + 1..]))
      else None
    else Prepend(Char(s[0]), Tokenize(s[1..]))
  }

  /** Writes pieces back as template text, doubling literal braces. */
  function PieceText(p: Piece): string {
    match p
    case Char(c) => if c == '{' then "{{" else if c == '}' then "}}" else [c]
    case Field(n) => "{" + n + "}"
  }

  function Untokenize(t: Template): string {
    if t == [] then "" else PieceText(t[0]) + Untokenize(t[1..])
  }

  /** Tokenising the text of a plain template gives back that template. */
  lemma {:induction false} TokenizeUntokenize(t: Template)
    requires PlainTemplate(t)
    ensures Tokenize(Untokenize(t)) == Some(t)
  {
    if t != [] {
      assert forall i | 1 <= i < |t| :: t[i] == t[1..][i - 1];
      TokenizeUntokenize(t[1..]);
      var s, rest := Untokenize(t), Untokenize(t[1..]);
      match t[0]
      case Char(c) =>
        if c == '{' || c == '}' {
          assert s[2..] == rest;
        } else {
          assert s[1..] == rest;
        }
        assert [t[0]] + t[1..] == t;
      case Field(n) =>
        assert s == "{" + n + "}" + rest;
        FieldText(n, rest);
        assert [t[0]] + t[1..] == t;
    }
  }

  /** The written-out form of a plain field, followed by `rest`. */
  lemma FieldText(n: string, rest: string)
    requires PlainName(n)
    ensures var s := "{" + n + "}" + rest;
      && NameEnd(s, 1) == 1 + |n| && s[1..1 + |n|] == n && s[1 + |n| + 1..] == rest
  {
    var s := "{" + n + "}" + rest;
    assert forall k | 1 <= k < 1 + |n| :: s[k] == n[k - 1];
    NameEndOfName(s, 1, 1 + |n|);
    assert s[1..1 + |n|] == n;
    assert s[1 + |n| + 1..] == rest;
  }

  lemma {:induction false} NameEndOfName(s: string, i: nat, j: nat)
    requires i <= j < |s| && Reserved(s[j])
    requires forall k | i <= k < j :: !Reserved(s[k])
    ensures NameEnd(s, i) == j
    decreases j - i
  {
    if i < j {
      NameEndOfName(s, i + 1, j);
    }
  }

  /** The first piece read from `s` is written back as the first `k`
      characters of `s`, and the rest is read from `s[k..]`. */
  lemma TokenizeStep(s: string) returns (k: nat)
    requires s != [] && Tokenize(s).Some?
    ensures 0 < k <= |s| && Tokenize(s[k..]).Some?
    ensures Tokenize(s).value == [Tokenize(s).value[0]] + Tokenize(s[k..]).value
    ensures PieceText(Tokenize(s).value[0]) == s[..k]
  {
    if s[0] == '{' && |s| > 1 && s[1] == '{' {
      k := 2;
    } else if s[0] == '}' && |s| > 1 && s[1] == '}' {
      k := 2;
    } else if s[0] == '{' {
      k := NameEnd(s, 1) + 1;
      assert s[..k] == "{" + s[1..k - 1] + "}";
    } else {
      k := 1;
    }
  }

  /** Whatever text tokenises is the text of the plain template it yields. */
  lemma {:induction false} UntokenizeTokenize(s: string, t: Template)
    requires Tokenize(s) == Some(t)
    ensures PlainTemplate(t) && Untokenize(t) == s
    decreases |s|
  {
    if s != [] {
      var k := TokenizeStep(s);
      var rest := Tokenize(s[k..]).value;
      UntokenizeTokenize(s[k..], rest);
      assert t[1..] == rest;
      assert s == s[..k] + s[k..];
    }
  }
}
