/**
 `escapeXml` of app/api/whatsapp/webhook/route.ts: five global replacements
 applied in turn, `&` first, producing the predefined entities of section
 4.6 of the XML 1.0 recommendation.

 The chained replacements are proved equal to a per-character reference
 escape, and undone by the five reverse replacements applied with `&amp;`
 last.
 */
module XmlEscape {

  // ---------------------------------------------------------------------
  // The source's formulation: chained global replacements
  // ---------------------------------------------------------------------

  /** `s.replace(/c/g, rep)` for a single character `c`. */
  function ReplaceChar(s: string, c: char, rep: string): string {
    if s == [] then [] else (if s[0] == c then rep else [s[0]]) + ReplaceChar(s[1..], c, rep)
  }

  /** `escapeXml` */
  function EscapeXml(s: string): string {
    var amp := ReplaceChar(s, '&', "&amp;");
    var lt := ReplaceChar(amp, '<', "&lt;");
    var gt := ReplaceChar(lt, '>', "&gt;");
    var quot := ReplaceChar(gt, '"', "&quot;");
    ReplaceChar(quot, '\'', "&apos;")
  }

  // ---------------------------------------------------------------------
  // Reference: escape each character on its own
  // ---------------------------------------------------------------------

  predicate IsSpecial(c: char) {
    c == '&' || c == '<' || c == '>' || c == '"' || c == '\''
  }

  /** The predefined entity of a special character; any other character
      stands for itself. */
  function EntityOf(c: char): string {
    if c == '&' then "&amp;"
    else if c == '<' then "&lt;"
    else if c == '>' then "&gt;"
    else if c == '"' then "&quot;"
    else if c == '\'' then "&apos;"
    else [c]
  }

  function EscapeRef(s: string): string {
    if s == [] then [] else EntityOf(s[0]) + EscapeRef(s[1..])
  }

  lemma {:induction false} ReplaceCharConcat(a: string, b: string, c: char, rep: string)
    ensures ReplaceChar(a + b, c, rep) == ReplaceChar(a, c, rep) + ReplaceChar(b, c, rep)
  {
    if a != [] {
      ReplaceCharConcat(a[1..], b, c, rep);
      assert (a + b)[1..] == a[1..] + b;
    } else {
      assert a + b == b;
    }
  }

  lemma {:induction false} ReplaceCharAbsent(s: string, c: char, rep: string)
    requires c !in s
    ensures ReplaceChar(s, c, rep) == s
  {
    if s != [] {
      ReplaceCharAbsent(s[1..], c, rep);
      assert [s[0]] + s[1..] == s;
    }
  }

  lemma EscapeXmlConcat(a: string, b: string)
    ensures EscapeXml(a + b) == EscapeXml(a) + EscapeXml(b)
  {
    ReplaceCharConcat(a, b, '&', "&amp;");
    var a1, b1 := ReplaceChar(a, '&', "&amp;"), ReplaceChar(b, '&', "&amp;");
    ReplaceCharConcat(a1, b1, '<', "&lt;");
    var a2, b2 := ReplaceChar(a1, '<', "&lt;"), ReplaceChar(b1, '<', "&lt;");
    ReplaceCharConcat(a2, b2, '>', "&gt;");
    var a3, b3 := ReplaceChar(a2, '>', "&gt;"), ReplaceChar(b2, '>', "&gt;");
    ReplaceCharConcat(a3, b3, '"', "&quot;");
    var a4, b4 := ReplaceChar(a3, '"', "&quot;"), ReplaceChar(b3, '"', "&quot;");
    ReplaceCharConcat(a4, b4, '\'', "&apos;");
  }

  /** Each replacement leaves the entities introduced before it alone. */
  lemma EscapeXmlOneChar(c: char)
    ensures EscapeXml([c]) == EntityOf(c)
  {
    var e := EntityOf(c);
    ReplaceCharSingle(c, '&', "&amp;");
    if c == '&' {
      EntityTail(c, '<', "&lt;");
      EntityTail(c, '>', "&gt;");
      EntityTail(c, '"', "&quot;");
      EntityTail(c, '\'', "&apos;");
    } else {
      ReplaceCharSingle(c, '<', "&lt;");
      if c == '<' {
        EntityTail(c, '>', "&gt;");
        EntityTail(c, '"', "&quot;");
        EntityTail(c, '\'', "&apos;");
      } else {
        ReplaceCharSingle(c, '>', "&gt;");
        if c == '>' {
          EntityTail(c, '"', "&quot;");
          EntityTail(c, '\'', "&apos;");
        } else {
          ReplaceCharSingle(c, '"', "&quot;");
          if c == '"' {
            EntityTail(c, '\'', "&apos;");
          } else {
            ReplaceCharSingle(c, '\'', "&apos;");
          }
        }
      }
    }
  }

  lemma ReplaceCharSingle(c: char, x: char, rep: string)
    ensures ReplaceChar([c], x, rep) == if c == x then rep else [c]
  {
    assert [c][1..] == [];
  }

  /** A later replacement does not touch an entity: entities hold only `&`,
      letters and `;`. */
  lemma EntityTail(c: char, x: char, rep: string)
    requires IsSpecial(c) && x in {'<', '>', '"', '\''}
    ensures ReplaceChar(EntityOf(c), x, rep) == EntityOf(c)
  {
    var e := EntityOf(c);
    assert forall i :: 0 <= i < |e| ==> e[i] == '&' || e[i] == ';' || 'a' <= e[i] <= 'z';
    ReplaceCharAbsent(e, x, rep);
  }

  /** The chained replacements escape every character independently: `&` is
      replaced first, so the `&` of an entity introduced later is never
      escaped again. */
  lemma {:induction false} EscapeXmlIsPerCharacter(s: string)
    ensures EscapeXml(s) == EscapeRef(s)
  {
    if s != [] {
      EscapeXmlIsPerCharacter(s[1..]);
      EscapeXmlConcat([s[0]], s[1..]);
      EscapeXmlOneChar(s[0]);
      assert [s[0]] + s[1..] == s;
    }
  }

  // ---------------------------------------------------------------------
  // What the escaped text looks like
  // ---------------------------------------------------------------------

  lemma {:induction false} EscapeRefHasNoMarkup(s: string)
    ensures forall i :: 0 <= i < |EscapeRef(s)| ==> EscapeRef(s)[i] !in {'<', '>', '"', '\''}
  {
    if s != [] {
      EscapeRefHasNoMarkup(s[1..]);
      var e := EntityOf(s[0]);
      assert forall i :: 0 <= i < |e| ==> e[i] !in {'<', '>', '"', '\''};
      assert EscapeRef(s) == e + EscapeRef(s[1..]);
    }
  }

  /** The escaped text contains no raw `<`, `>`, `"` or `'`. */
  lemma EscapeXmlHasNoMarkup(s: string)
    ensures forall i :: 0 <= i < |EscapeXml(s)| ==> EscapeXml(s)[i] !in {'<', '>', '"', '\''}
  {
    EscapeXmlIsPerCharacter(s);
    EscapeRefHasNoMarkup(s);
  }

  lemma {:induction false} EscapeRefIdentity(s: string)
    requires forall i :: 0 <= i < |s| ==> !IsSpecial(s[i])
    ensures EscapeRef(s) == s
  {
    if s != [] {
      EscapeRefIdentity(s[1..]);
      assert [s[0]] + s[1..] == s;
    }
  }

  /** A string with none of the five special characters is left unchanged. */
  lemma EscapeXmlIdentity(s: string)
    requires forall i :: 0 <= i < |s| ==> !IsSpecial(s[i])
    ensures EscapeXml(s) == s
  {
    EscapeXmlIsPerCharacter(s);
    EscapeRefIdentity(s);
  }

  // ---------------------------------------------------------------------
  // Decoding: the five reverse replacements, `&amp;` last
  // ---------------------------------------------------------------------

  /** `s.replaceAll(pat, rep)` for a literal pattern: left to right, without
      overlaps. */
  function ReplaceAll(s: string, pat: string, rep: string): string
    requires pat != []
    decreases |s|
  {
    if |s| < |pat| then s
    else if s[..|pat|] == pat then rep + ReplaceAll(s[|pat|..], pat, rep)
    else [s[0]] + ReplaceAll(s[1..], pat, rep)
  }

  /** The special characters in decoding order, `&` last, with their entities. */
  const Decoded: seq<char> := ['<', '>', '"', '\'', '&']
  const Entities: seq<string> := ["&lt;", "&gt;", "&quot;", "&apos;", "&amp;"]

  /** Apply the reverse replacements number `k` to 4 in order. */
  function UnescapeFrom(s: string, k: nat): string
    requires k <= 5
    decreases 5 - k
  {
    if k == 5 then s else UnescapeFrom(ReplaceAll(s, Entities[k], [Decoded[k]]), k + 1)
  }

  /** Decode the five predefined entities, `&amp;` last. */
  function UnescapeXml(s: string): string {
    UnescapeFrom(s, 0)
  }

  /** The position of a special character in the decoding order; 5 for the
      other characters. */
  function DecodeIndex(c: char): nat {
    if c == '<' then 0 else if c == '>' then 1 else if c == '"' then 2
    else if c == '\'' then 3 else if c == '&' then 4 else 5
  }

  /** A character after the first `k` reverse replacements. */
  function Stage(k: nat, c: char): string {
    if DecodeIndex(c) < k then [c] else EntityOf(c)
  }

  function Staged(k: nat, s: string): string {
    if s == [] then [] else Stage(k, s[0]) + Staged(k, s[1..])
  }

  lemma {:induction false} StagedBounds(s: string)
    ensures Staged(0, s) == EscapeRef(s)
    ensures Staged(5, s) == s
  {
    if s != [] {
      StagedBounds(s[1..]);
      assert [s[0]] + s[1..] == s;
    }
  }

  /** A text with no `&` passes a replacement of a pattern starting with `&`
      unchanged. */
  lemma {:induction false} ReplaceAllSkipsNoAmp(x: string, rest: string, pat: string, rep: string)
    requires pat != [] && pat[0] == '&' && '&' !in x
    ensures ReplaceAll(x + rest, pat, rep) == x + ReplaceAll(rest, pat, rep)
    decreases |x|
  {
    if x != [] {
      var s := x + rest;
      ReplaceAllSkipsNoAmp(x[1..], rest, pat, rep);
      assert s[1..] == x[1..] + rest;
      if |s| < |pat| {
        assert |rest| < |pat|;
      } else {
        assert s[..|pat|][0] == x[0] != pat[0];
      }
    } else {
      assert x + rest == rest;
    }
  }

  /** The pattern itself is replaced. */
  lemma ReplaceAllMatch(pat: string, rest: string, rep: string)
    requires pat != []
    ensures ReplaceAll(pat + rest, pat, rep) == rep + ReplaceAll(rest, pat, rep)
  {
    assert (pat + rest)[..|pat|] == pat;
    assert (pat + rest)[|pat|..] == rest;
  }

  /** Every entity is `&`, then at least three characters none of which is `&`. */
  lemma EntityShape(i: nat)
    requires i < 5
    ensures |Entities[i]| >= 4 && Entities[i][0] == '&' && '&' !in Entities[i][1..]
  {
  }

  /** Two distinct entities differ at position 1 or 2. */
  lemma EntitiesDiffer(i: nat, k: nat) returns (j: nat)
    requires i < 5 && k < 5 && i != k
    ensures j in {1, 2} && Entities[i][j] != Entities[k][j]
  {
    j := if (i == 3 && k == 4) || (i == 4 && k == 3) then 2 else 1;
  }

  /** Another entity than the pattern is kept as it is. */
  lemma ReplaceAllOtherEntity(i: nat, k: nat, rest: string, rep: string)
    requires i < 5 && k < 5 && i != k
    ensures ReplaceAll(Entities[i] + rest, Entities[k], rep) == Entities[i] + ReplaceAll(rest, Entities[k], rep)
  {
    EntityShape(i);
    EntityShape(k);
    var j := EntitiesDiffer(i, k);
    ReplaceAllMismatch(Entities[i], Entities[k], rest, rep, j);
  }

  /** A text of the entity shape that differs from the pattern near its start
      is kept as it is. */
  lemma ReplaceAllMismatch(e: string, pat: string, rest: string, rep: string, j: nat)
    requires |e| >= 4 && e[0] == '&' && '&' !in e[1..]
    requires |pat| >= 4 && pat[0] == '&'
    requires 1 <= j <= 2 && e[j] != pat[j]
    ensures ReplaceAll(e + rest, pat, rep) == e + ReplaceAll(rest, pat, rep)
  {
    var s := e + rest;
    ReplaceAllSkipsNoAmp(e[1..], rest, pat, rep);
    assert s[1..] == e[1..] + rest;
    if |s| < |pat| {
      assert |rest| < |pat|;
    } else {
      assert s[..|pat|][j] != pat[j];
    }
    assert [e[0]] + e[1..] == e;
  }

  /** Reverse replacement number `k` turns stage `k` into stage `k + 1`. */
  lemma {:induction false} ReplaceAdvancesStage(k: nat, s: string)
    requires k < 5
    ensures ReplaceAll(Staged(k, s), Entities[k], [Decoded[k]]) == Staged(k + 1, s)
  {
    var pat, rep := Entities[k], [Decoded[k]];
    if s != [] {
      var c, t := s[0], s[1..];
      ReplaceAdvancesStage(k, t);
      assert Staged(k, s) == Stage(k, c) + Staged(k, t);
      if DecodeIndex(c) == k {
        assert Stage(k, c) == pat && Stage(k + 1, c) == rep;
        ReplaceAllMatch(pat, Staged(k, t), rep);
      } else if DecodeIndex(c) < k || !IsSpecial(c) {
        assert Stage(k, c) == [c] == Stage(k + 1, c) && c != '&';
        EntityShape(k);
        ReplaceAllSkipsNoAmp([c], Staged(k, t), pat, rep);
      } else {
        assert Stage(k, c) == EntityOf(c) == Stage(k + 1, c) == Entities[DecodeIndex(c)];
        ReplaceAllOtherEntity(DecodeIndex(c), k, Staged(k, t), rep);
      }
    }
  }

  lemma {:induction false} UnescapeFromStage(k: nat, s: string)
    requires k <= 5
    ensures UnescapeFrom(Staged(k, s), k) == s
    decreases 5 - k
  {
    if k == 5 {
      StagedBounds(s);
    } else {
      ReplaceAdvancesStage(k, s);
      UnescapeFromStage(k + 1, s);
    }
  }

  /** Decoding the five entities, `&amp;` last, recovers the input of
      `escapeXml`. */
  lemma UnescapeEscape(s: string)
    ensures UnescapeXml(EscapeXml(s)) == s
  {
    EscapeXmlIsPerCharacter(s);
    StagedBounds(s);
    UnescapeFromStage(0, s);
  }

  /** Escaping is injective: distinct texts give distinct escaped texts. */
  lemma EscapeXmlInjective(a: string, b: string)
    requires EscapeXml(a) == EscapeXml(b)
    ensures a == b
  {
    UnescapeEscape(a);
    UnescapeEscape(b);
  }
}
