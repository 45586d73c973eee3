// Data paths: JSON Pointers (sections 3 and 4 of RFC 6901) as pointerParts of
// kit/result/surface.go reads them.
module Pointer {
  import opened Wrappers
  import Text

  const MAX_PATH := 512

  // strings.ReplaceAll of a tilde and a digit.
  function ReplaceAll(s: string, digit: char, with: char): string {
    if |s| < 2 then s
    else if s[0] == '~' && s[1] == digit then [with] + ReplaceAll(s[2..], digit, with)
    else [s[0]] + ReplaceAll(s[1..], digit, with)
  }

  function Unescape(s: string): string {
    ReplaceAll(ReplaceAll(s, '1', '/'), '0', '~')
  }

  // Every tilde is followed by 0 or 1.
  predicate WellEscaped(s: string) {
    s == "" || if s[0] == '~' then |s| > 1 && s[1] in {'0', '1'} && WellEscaped(s[2..]) else WellEscaped(s[1..])
  }

  // Section 3: a tilde is written ~0 and a slash ~1.
  function Escape(t: string): string {
    if t == "" then ""
    else (if t[0] == '~' then "~0" else if t[0] == '/' then "~1" else [t[0]]) + Escape(t[1..])
  }

  // Section 3: a pointer is its reference tokens, each after a slash.
  function PointerOf(tokens: seq<string>): string {
    if tokens == [] then "" else "/" + Escape(tokens[0]) + PointerOf(tokens[1..])
  }

  // ---- Escaping and its inverse.

  lemma ReplaceStep(c: char, s: string, digit: char, with: char)
    requires c != '~' || s == "" || s[0] != digit
    ensures ReplaceAll([c] + s, digit, with) == [c] + ReplaceAll(s, digit, with)
  {
    assert ([c] + s)[1..] == s;
  }

  lemma UnescapeTilde(s: string)
    ensures Unescape("~0" + s) == "~" + Unescape(s)
  {
    var first := ReplaceAll(s, '1', '/');
    assert "~0" + s == ['~'] + (['0'] + s);
    ReplaceStep('0', s, '1', '/');
    ReplaceStep('~', ['0'] + s, '1', '/');
    assert ['~'] + (['0'] + first) == ['~', '0'] + first;
  }

  lemma {:induction false} UnescapeEscape(t: string)
    ensures Unescape(Escape(t)) == t && WellEscaped(Escape(t)) && '/' !in Escape(t)
  {
    if t != "" {
      var rest := Escape(t[1..]);
      UnescapeEscape(t[1..]);
      if t[0] == '~' {
        UnescapeTilde(rest);
        assert ("~0" + rest)[2..] == rest;
      } else if t[0] == '/' {
        assert ("~1" + rest)[2..] == rest;
      } else {
        assert ([t[0]] + rest)[1..] == rest;
      }
    }
  }

  lemma {:induction false} EscapeUnescape(s: string)
    requires WellEscaped(s) && '/' !in s
    ensures Escape(Unescape(s)) == s
    decreases |s|
  {
    if s != "" {
      if s[0] == '~' {
        var rest := s[2..];
        EscapeUnescape(rest);
        if s[1] == '0' {
          assert s == "~0" + rest;
          UnescapeTilde(rest);
        } else {
          assert s == "~1" + rest;
        }
      } else {
        var rest := s[1..];
        assert s == [s[0]] + rest;
        EscapeUnescape(rest);
      }
    }
  }

  // ---- pointerParts.

  function UnescapeAll(parts: seq<string>): Option<seq<string>> {
    if parts == [] then Some([])
    else
      var before := UnescapeAll(parts[..|parts| - 1]);
      var last := parts[|parts| - 1];
      if before.None? || !WellEscaped(last) then None else Some(before.value + [Unescape(last)])
  }

  function PartsOf(path: string): Option<seq<string>> {
    if path == "" || path == "/" then Some([])
    else if path[0] != '/' || |path| > MAX_PATH then None
    else UnescapeAll(Text.Split(path[1..], '/'))
  }

  method PointerParts(path: string) returns (r: Option<seq<string>>)
    ensures r == PartsOf(path)
  {
    if path == "" || path == "/" { return Some([]); }
    if path[0] != '/' || |path| > MAX_PATH { return None; }
    var parts := Text.Split(path[1..], '/');
    var out: seq<string> := [];
    for i := 0 to |parts|
      invariant UnescapeAll(parts[..i]) == Some(out)
    {
      var p := parts[i];
      assert parts[..i + 1][..i] == parts[..i];
      var ok := Scan(p);
      if !ok {
        Refused(parts, i + 1);
        return None;
      }
      out := out + [Unescape(p)];
    }
    assert parts[..|parts|] == parts;
    r := Some(out);
  }

  // The inner loop: a tilde takes the character after it along.
  method Scan(p: string) returns (ok: bool)
    ensures ok == WellEscaped(p)
  {
    var j := 0;
    while j < |p|
      invariant 0 <= j <= |p| && WellEscaped(p) == WellEscaped(p[j..])
    {
      if p[j] == '~' {
        if j + 1 == |p| || (p[j + 1] != '0' && p[j + 1] != '1') { return false; }
        j := j + 1;
      }
      j := j + 1;
    }
    ok := true;
  }

  lemma {:induction false} Refused(parts: seq<string>, i: nat)
    requires i <= |parts| && UnescapeAll(parts[..i]).None?
    ensures UnescapeAll(parts).None?
    decreases |parts| - i
  {
    if i < |parts| {
      assert parts[..i + 1][..i] == parts[..i];
      Refused(parts, i + 1);
    } else {
      assert parts[..i] == parts;
    }
  }

  // ---- The round trip.

  function Escapes(tokens: seq<string>): (parts: seq<string>)
    ensures |parts| == |tokens|
    ensures forall k :: 0 <= k < |tokens| ==> parts[k] == Escape(tokens[k])
  {
    seq(|tokens|, k requires 0 <= k < |tokens| => Escape(tokens[k]))
  }

  lemma {:induction false} PointerJoins(tokens: seq<string>)
    requires tokens != []
    ensures PointerOf(tokens) == "/" + Text.Join(Escapes(tokens), '/')
  {
    if |tokens| == 1 {
      assert PointerOf(tokens[1..]) == "";
    } else {
      PointerJoins(tokens[1..]);
      assert Escapes(tokens)[1..] == Escapes(tokens[1..]);
    }
  }

  lemma {:induction false} UnescapeAllEscapes(tokens: seq<string>)
    ensures UnescapeAll(Escapes(tokens)) == Some(tokens)
  {
    if tokens != [] {
      var last := |tokens| - 1;
      assert Escapes(tokens)[..last] == Escapes(tokens[..last]);
      UnescapeAllEscapes(tokens[..last]);
      UnescapeEscape(tokens[last]);
      assert tokens == tokens[..last] + [tokens[last]];
      assert |Escapes(tokens)| - 1 == last && Escapes(tokens)[last] == Escape(tokens[last]);
    }
  }

  // pointerParts inverts the escaping of section 3, except that it reads the pointer of the
  // single empty token as the whole document.
  lemma PartsOfPointer(tokens: seq<string>)
    requires |PointerOf(tokens)| <= 512
    ensures PartsOf(PointerOf(tokens)) == Some(if tokens == [""] then [] else tokens)
  {
    if tokens != [] && tokens != [""] {
      var parts := Escapes(tokens);
      PointerJoins(tokens);
      assert PointerOf(tokens)[1..] == Text.Join(parts, '/');
      forall k | 0 <= k < |parts| ensures '/' !in parts[k] { UnescapeEscape(tokens[k]); }
      Text.SplitJoin(parts, '/');
      UnescapeAllEscapes(tokens);
    }
  }

  lemma {:induction false} EscapesUnescapeAll(parts: seq<string>)
    requires UnescapeAll(parts).Some? && forall k :: 0 <= k < |parts| ==> '/' !in parts[k]
    ensures Escapes(UnescapeAll(parts).value) == parts
  {
    if parts != [] {
      var last := |parts| - 1;
      EscapesUnescapeAll(parts[..last]);
      EscapeUnescape(parts[last]);
      assert parts == parts[..last] + [parts[last]];
    }
  }

  // Every accepted path but the lone slash is the pointer of its parts.
  lemma PointerOfParts(path: string)
    requires PartsOf(path).Some? && path != "/"
    ensures PointerOf(PartsOf(path).value) == path && |path| <= 512
  {
    if path != "" {
      var parts := Text.Split(path[1..], '/');
      var tokens := PartsOf(path).value;
      EscapesUnescapeAll(parts);
      Text.JoinSplit(path[1..], '/');
      assert |tokens| == |parts|;
      PointerJoins(tokens);
    }
  }
}
