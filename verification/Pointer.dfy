/** Resource pointers: splitting and unescaping against the escaping of RFC 6901, sections 3 and 4. */
module Pointer {
  import opened Common

  // ---- strings.Split and strings.ReplaceAll ----

  function Split(s: string): (r: seq<string>)
    ensures |r| > 0
  {
    if s == "" then [""]
    else
      var rest := Split(s[1..]);
      if s[0] == '/' then [""] + rest else [[s[0]] + rest[0]] + rest[1..]
  }

  /** Replaces every occurrence of the two characters by one, from the left. */
  function ReplaceAll(s: string, a: char, b: char, c: char): string {
    if |s| < 2 then s
    else if s[0] == a && s[1] == b then [c] + ReplaceAll(s[2..], a, b, c)
    else [s[0]] + ReplaceAll(s[1..], a, b, c)
  }

  function TrimSlash(pointer: string): string {
    if pointer != "" && pointer[0] == '/' then pointer[1..] else pointer
  }

  function Unescape(part: string): string {
    ReplaceAll(ReplaceAll(part, '~', '1', '/'), '~', '0', '~')
  }

  function UnescapeAll(parts: seq<string>): (r: seq<string>)
    ensures |r| == |parts| && forall i :: 0 <= i < |r| ==> r[i] == Unescape(parts[i])
  {
    seq(|parts|, i requires 0 <= i < |parts| => Unescape(parts[i]))
  }

  /** The tokens resourceID walks. */
  function Tokens(pointer: string): seq<string> {
    UnescapeAll(Split(TrimSlash(pointer)))
  }

  // ---- the representation of RFC 6901 ----

  function EscapeChar(c: char): string {
    if c == '~' then "~0" else if c == '/' then "~1" else [c]
  }

  function Escape(token: string): string {
    if token == "" then "" else EscapeChar(token[0]) + Escape(token[1..])
  }

  function Render(tokens: seq<string>): string {
    if tokens == [] then "" else "/" + Escape(tokens[0]) + Render(tokens[1..])
  }

  // ---- round trip ----

  /** A token with only its tildes escaped. */
  function EscapeTildes(token: string): string {
    if token == "" then "" else (if token[0] == '~' then "~0" else [token[0]]) + EscapeTildes(token[1..])
  }

  lemma ReplaceHead(h: char, s: string, a: char, b: char, c: char)
    requires h != a || s == "" || s[0] != b
    ensures ReplaceAll([h] + s, a, b, c) == [h] + ReplaceAll(s, a, b, c)
  {
    assert ([h] + s)[1..] == s;
  }

  lemma ReplaceMatch(s: string, a: char, b: char, c: char)
    ensures ReplaceAll([a, b] + s, a, b, c) == [c] + ReplaceAll(s, a, b, c)
  {
    assert ([a, b] + s)[2..] == s;
  }

  lemma ReplaceTwoHeads(g: char, h: char, s: string, a: char, b: char, c: char)
    requires h != a && h != b
    ensures ReplaceAll([g, h] + s, a, b, c) == [g, h] + ReplaceAll(s, a, b, c)
  {
    ReplaceHead(h, s, a, b, c);
    ReplaceHead(g, [h] + s, a, b, c);
    assert [g, h] + s == [g] + ([h] + s);
    assert [g, h] + ReplaceAll(s, a, b, c) == [g] + ([h] + ReplaceAll(s, a, b, c));
  }

  lemma {:induction false} SlashesFirst(token: string)
    ensures ReplaceAll(Escape(token), '~', '1', '/') == EscapeTildes(token)
  {
    if token != "" {
      hide ReplaceAll;
      var rest := token[1..];
      SlashesFirst(rest);
      match token[0] {
        case '~' => ReplaceTwoHeads('~', '0', Escape(rest), '~', '1', '/');
        case '/' => ReplaceMatch(Escape(rest), '~', '1', '/');
        case _ => ReplaceHead(token[0], Escape(rest), '~', '1', '/');
      }
    }
  }

  lemma {:induction false} TildesSecond(token: string)
    ensures ReplaceAll(EscapeTildes(token), '~', '0', '~') == token
  {
    if token != "" {
      var rest := token[1..];
      TildesSecond(rest);
      assert token == [token[0]] + rest;
      if token[0] == '~' {
        ReplaceMatch(EscapeTildes(rest), '~', '0', '~');
        assert EscapeTildes(token) == ['~', '0'] + EscapeTildes(rest);
      } else {
        ReplaceHead(token[0], EscapeTildes(rest), '~', '0', '~');
      }
    }
  }

  lemma UnescapeEscape(token: string)
    ensures Unescape(Escape(token)) == token
  {
    SlashesFirst(token);
    TildesSecond(token);
  }

  lemma {:induction false} EscapeHasNoSlash(token: string)
    ensures '/' !in Escape(token)
  {
    if token != "" {
      EscapeHasNoSlash(token[1..]);
    }
  }

  lemma {:induction false} SplitWord(a: string)
    requires '/' !in a
    ensures Split(a) == [a]
  {
    if a != "" {
      SplitWord(a[1..]);
      assert a[0] in a && a == [a[0]] + a[1..];
    }
  }

  lemma {:induction false} SplitAtSlash(a: string, b: string)
    requires '/' !in a
    ensures Split(a + "/" + b) == [a] + Split(b)
  {
    var s := a + "/" + b;
    if a == "" {
      assert s[1..] == b;
    } else {
      SplitAtSlash(a[1..], b);
      assert s[1..] == a[1..] + "/" + b;
      assert a[0] in a && a == [a[0]] + a[1..];
    }
  }

  lemma TrimRendered(tokens: seq<string>)
    requires tokens != []
    ensures Render(tokens) == "/" + TrimSlash(Render(tokens))
    ensures TrimSlash(Render(tokens)) == Escape(tokens[0]) + Render(tokens[1..])
  {
    var rest := Escape(tokens[0]) + Render(tokens[1..]);
    assert Render(tokens) == "/" + rest;
    assert ("/" + rest)[1..] == rest;
  }

  lemma {:induction false} SplitRendered(tokens: seq<string>)
    requires tokens != []
    ensures UnescapeAll(Split(TrimSlash(Render(tokens)))) == tokens
  {
    hide Split, Unescape, TrimSlash, Escape;
    var first, rest := Escape(tokens[0]), tokens[1..];
    EscapeHasNoSlash(tokens[0]);
    UnescapeEscape(tokens[0]);
    TrimRendered(tokens);
    if rest == [] {
      assert TrimSlash(Render(tokens)) == first;
      SplitWord(first);
    } else {
      SplitRendered(rest);
      TrimRendered(rest);
      var tail := TrimSlash(Render(rest));
      assert TrimSlash(Render(tokens)) == first + "/" + tail;
      SplitAtSlash(first, tail);
      assert UnescapeAll([first] + Split(tail)) == [Unescape(first)] + UnescapeAll(Split(tail));
    }
  }

  /** The tokens walked are the tokens rendered, also empty ones and ones with tildes and slashes. */
  lemma TokensOfRendered(tokens: seq<string>)
    requires tokens != []
    ensures Tokens(Render(tokens)) == tokens
  {
    SplitRendered(tokens);
  }

  /** Different token lists have different pointers. */
  lemma RenderInjective(a: seq<string>, b: seq<string>)
    requires a != [] && b != [] && Render(a) == Render(b)
    ensures a == b
  {
    TokensOfRendered(a);
    TokensOfRendered(b);
  }

  // ---- walking a payload ----

  datatype Json = Object(members: map<string, Json>) | Text(text: string) | OtherValue

  /** The value a list of tokens leads to, going through objects only. */
  function Follow(value: Json, tokens: seq<string>): Option<Json> {
    if tokens == [] then Some(value)
    else if value.Object? && tokens[0] in value.members then Follow(value.members[tokens[0]], tokens[1..])
    else None
  }

  /** The resource a pointer names: a stable identifier at the end of the walk. */
  function Named(value: Json, tokens: seq<string>): Option<string> {
    match Follow(value, tokens)
    case Some(Text(s)) => if IsStableId(s) then Some(s) else None
    case _ => None
  }

  /** resourceID; `payload` is None when the bytes are not JSON. */
  method ResourceId(pointer: string, payload: Option<Json>) returns (r: Option<string>)
    ensures pointer == "" ==> r == Some("")
    ensures pointer != "" ==> r == if payload.Some? then Named(payload.value, Tokens(pointer)) else None
  {
    if pointer == "" {
      return Some("");
    }
    if payload.None? {
      return None;
    }
    var parts := Split(TrimSlash(pointer));
    ghost var tokens := Tokens(pointer);
    var value := payload.value;
    var n := 0;
    while n < |parts|
      invariant n <= |parts|
      invariant Follow(payload.value, tokens) == Follow(value, tokens[n..])
    {
      var part := Unescape(parts[n]);
      assert tokens[n..][0] == part && tokens[n..][1..] == tokens[n + 1..];
      if !value.Object? || part !in value.members {
        return None;
      }
      value := value.members[part];
      n := n + 1;
    }
    r := if value.Text? && value.text != "" && IsStableId(value.text) then Some(value.text) else None;
  }

  /** A rendered pointer finds exactly the value its tokens lead to. */
  lemma RenderedPointerNames(value: Json, tokens: seq<string>)
    requires tokens != []
    ensures Named(value, Tokens(Render(tokens))) == Named(value, tokens)
  {
    TokensOfRendered(tokens);
  }
}
