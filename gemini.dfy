/**
 * Unwrapping the generative service's replies: every text part is trimmed of
 * white space, stripped of one leading "```json" and one trailing "```", and
 * decoded on top of what the earlier parts decoded to. The JSON decoder is a
 * given partial function; the network call and the file read are outcomes.
 */
module Gemini {
  import opened Wrappers
  import opened Models

  /** White space as Go's unicode.IsSpace defines it. */
  predicate IsSpace(c: char) {
    || c == ' ' || c == '\t' || c == '\n' || c == '\r' || c == '\U{000B}' || c == '\U{000C}'
    || c == '\U{0085}' || c == '\U{00A0}' || c == '\U{1680}'
    || ('\U{2000}' <= c <= '\U{200A}')
    || c == '\U{2028}' || c == '\U{2029}' || c == '\U{202F}' || c == '\U{205F}' || c == '\U{3000}'
  }

  predicate AllSpace(s: string) {
    forall i :: 0 <= i < |s| ==> IsSpace(s[i])
  }

  /** Drop leading white space: the result is the longest suffix that does not start with a space. */
  function TrimLeftSpace(s: string): (r: string)
    ensures |r| <= |s| && r == s[|s| - |r|..]
    ensures AllSpace(s[..|s| - |r|])
    ensures r == [] || !IsSpace(r[0])
  {
    if s != [] && IsSpace(s[0]) then TrimLeftSpace(s[1..]) else s
  }

  /** Drop trailing white space: the result is the longest prefix that does not end with a space. */
  function TrimRightSpace(s: string): (r: string)
    ensures |r| <= |s| && r == s[..|r|]
    ensures AllSpace(s[|r|..])
    ensures r == [] || !IsSpace(r[|r| - 1])
  {
    if s != [] && IsSpace(s[|s| - 1]) then TrimRightSpace(s[..|s| - 1]) else s
  }

  /** strings.TrimSpace. */
  function TrimSpace(s: string): string {
    TrimRightSpace(TrimLeftSpace(s))
  }

  /** strings.TrimPrefix: remove one occurrence of `p` at the start, if there. */
  function TrimPrefix(s: string, p: string): (r: string)
    ensures |r| <= |s| && r == s[|s| - |r|..]
  {
    if p <= s then s[|p|..] else s
  }

  predicate HasSuffix(s: string, p: string) {
    |p| <= |s| && s[|s| - |p|..] == p
  }

  /** strings.TrimSuffix: remove one occurrence of `p` at the end, if there. */
  function TrimSuffix(s: string, p: string): (r: string)
    ensures |r| <= |s| && r == s[..|r|]
  {
    if HasSuffix(s, p) then s[..|s| - |p|] else s
  }

  const OpenFence := "```json"
  const CloseFence := "```"

  /** The clean-up applied to every text part before it is decoded. */
  function CleanJson(text: string): (r: string)
    ensures |r| <= |text|
    ensures exists i, j :: 0 <= i <= j <= |text| && r == text[i..j]
  {
    var v := TrimSuffix(TrimPrefix(TrimSpace(text), OpenFence), CloseFence);
    CleanIsSlice(text);
    v
  }

  lemma CleanIsSlice(text: string)
    ensures var v := TrimSuffix(TrimPrefix(TrimSpace(text), OpenFence), CloseFence);
            exists i, j :: 0 <= i <= j <= |text| && v == text[i..j]
  {
    var l := TrimLeftSpace(text);
    var t := TrimRightSpace(l);
    var u := TrimPrefix(t, OpenFence);
    SliceChain(text, l, t, u, TrimSuffix(u, CloseFence));
  }

  /** A prefix of a suffix of a prefix of a suffix of `s` is a slice of `s`. */
  lemma SliceChain(s: string, l: string, t: string, u: string, v: string)
    requires |l| <= |s| && l == s[|s| - |l|..]
    requires |t| <= |l| && t == l[..|t|]
    requires |u| <= |t| && u == t[|t| - |u|..]
    requires |v| <= |u| && v == u[..|v|]
    ensures exists i, j :: 0 <= i <= j <= |s| && v == s[i..j]
  {
    var a := |s| - |l|;
    var b := a + (|t| - |u|);
    SliceOfSlice(s, a, |t|, |t| - |u|, |v|);
    assert v == s[b..b + |v|];
  }

  /** The suffix of a prefix of a suffix of `s` is a slice of `s`. */
  lemma SliceOfSlice(s: string, a: nat, n: nat, c: nat, d: nat)
    requires a + n <= |s| && c + d <= n
    ensures s[a..][..n][c..][..d] == s[a + c..a + c + d]
  {
    assert s[a..][..n] == s[a..a + n];
    assert s[a..a + n][c..] == s[a + c..a + n];
    assert s[a + c..a + n][..d] == s[a + c..a + c + d];
  }

  /** Trimming white space off a padded text whose own ends are not white space gives back that text. */
  lemma TrimSpacePadded(w1: string, x: string, w2: string)
    requires AllSpace(w1) && AllSpace(w2)
    requires x == [] || (!IsSpace(x[0]) && !IsSpace(x[|x| - 1]))
    ensures TrimSpace(w1 + x + w2) == x
  {
    if x == [] {
      assert w1 + x + w2 == w1 + w2;
      TrimLeftAllSpace(w1 + w2);
    } else {
      assert w1 + x + w2 == w1 + (x + w2);
      TrimLeftPadded(w1, x + w2);
      TrimRightPadded(x, w2);
    }
  }

  lemma {:induction false} TrimLeftAllSpace(w: string)
    requires AllSpace(w)
    ensures TrimLeftSpace(w) == []
  {
    if w != [] {
      TrimLeftAllSpace(w[1..]);
    }
  }

  lemma {:induction false} TrimLeftPadded(w: string, y: string)
    requires AllSpace(w)
    requires y != [] && !IsSpace(y[0])
    ensures TrimLeftSpace(w + y) == y
  {
    if w != [] {
      assert (w + y)[1..] == w[1..] + y;
      TrimLeftPadded(w[1..], y);
    } else {
      assert w + y == y;
    }
  }

  lemma {:induction false} TrimRightPadded(x: string, w: string)
    requires AllSpace(w)
    requires x != [] && !IsSpace(x[|x| - 1])
    ensures TrimRightSpace(x + w) == x
  {
    if w != [] {
      assert (x + w)[..|x + w| - 1] == x + w[..|w| - 1];
      TrimRightPadded(x, w[..|w| - 1]);
    } else {
      assert x + w == x;
    }
  }

  /** A text with neither fence after trimming comes out only trimmed. */
  lemma CleanUnfenced(text: string)
    requires !(OpenFence <= TrimSpace(text)) && !HasSuffix(TrimSpace(text), CloseFence)
    ensures CleanJson(text) == TrimSpace(text)
  {
  }

  /** A fenced block, with any white space around it, comes out as exactly its body. */
  lemma CleanUnwrapsFence(w1: string, body: string, w2: string)
    requires AllSpace(w1) && AllSpace(w2)
    ensures CleanJson(w1 + OpenFence + body + CloseFence + w2) == body
  {
    var y := body + CloseFence;
    var x := OpenFence + y;
    assert w1 + OpenFence + body + CloseFence + w2 == w1 + x + w2;
    assert x[0] == '`' && x[|x| - 1] == y[|y| - 1] == '`';
    TrimSpacePadded(w1, x, w2);
    PrefixRemoved(OpenFence, y);
    SuffixRemoved(body, CloseFence);
  }

  lemma PrefixRemoved(p: string, y: string)
    ensures TrimPrefix(p + y, p) == y
  {
    assert (p + y)[..|p|] == p;
    assert (p + y)[|p|..] == y;
  }

  lemma SuffixRemoved(y: string, p: string)
    ensures TrimSuffix(y + p, p) == y
  {
    assert (y + p)[|y|..] == p;
    assert (y + p)[..|y|] == y;
  }

  /** A leading bare "```" not followed by "json" stays in place. */
  lemma CleanKeepsBareFence(text: string)
    requires CloseFence <= TrimSpace(text) && !(OpenFence <= TrimSpace(text))
    requires |TrimSpace(text)| >= 2 * |CloseFence|
    ensures CloseFence <= CleanJson(text)
  {
    var t := TrimSpace(text);
    assert TrimPrefix(t, OpenFence) == t;
    var v := TrimSuffix(t, CloseFence);
    assert CleanJson(text) == v;
    PrefixSurvives(t, v, CloseFence);
  }

  /** A prefix of `t` no longer than the prefix `v` of `t` is a prefix of `v` too. */
  lemma PrefixSurvives(t: string, v: string, p: string)
    requires p <= t && |p| <= |v| <= |t| && v == t[..|v|]
    ensures p <= v
  {
    assert v[..|p|] == t[..|p|];
  }

  /** One part of a candidate's content: text, or anything else (inline data, calls). */
  datatype Part = Text(text: string) | NonText
  datatype Candidate = Candidate(parts: seq<Part>)

  /** The parts of all candidates, candidate by candidate, in order. */
  function Flatten(cands: seq<Candidate>): seq<Part> {
    if cands == [] then [] else Flatten(cands[..|cands| - 1]) + Last(cands).parts
  }

  lemma {:induction false} FlattenAppend(a: seq<Candidate>, b: seq<Candidate>)
    ensures Flatten(a + b) == Flatten(a) + Flatten(b)
    decreases |b|
  {
    if b == [] {
      assert a + b == a;
    } else {
      assert (a + b)[..|a + b| - 1] == a + b[..|b| - 1];
      FlattenAppend(a, b[..|b| - 1]);
    }
  }

  /** The error a part that does not decode produces. */
  function ParseError(what: string, jsonError: string, content: string): string {
    "failed to parse " + what + " JSON: " + jsonError + ", content: " + content
  }

  /** A decoder: decodes a cleaned text on top of the previous value, or fails with a message. */
  type Decoder<!T> = (T, string) -> Result<T, string>

  /** Decoding one more part on top of the value so far. */
  function Step<T>(acc: T, part: Part, decode: Decoder<T>, what: string): Result<T, string> {
    match part
    case NonText => Success(acc)
    case Text(x) =>
      var clean := CleanJson(x);
      var d := decode(acc, clean);
      if d.Failure? then Failure(ParseError(what, d.error, clean)) else Success(d.value)
  }

  /** The parse of a sequence of parts, left to right from `zero`, stopping at the first failure. */
  function Parsed<T>(parts: seq<Part>, zero: T, decode: Decoder<T>, what: string): Result<T, string>
    decreases |parts|
  {
    if parts == [] then Success(zero)
    else
      var before := Parsed(parts[..|parts| - 1], zero, decode, what);
      if before.Failure? then before else Step(before.value, Last(parts), decode, what)
  }

  lemma ParsedSnoc<T>(s: seq<Part>, p: Part, zero: T, decode: Decoder<T>, what: string)
    ensures var before := Parsed(s, zero, decode, what);
            Parsed(s + [p], zero, decode, what)
              == if before.Failure? then before else Step(before.value, p, decode, what)
  {
    assert (s + [p])[..|s + [p]| - 1] == s;
  }

  /** The first part that fails ends the parse: later parts change nothing. */
  lemma {:induction false} ParsedStopsAtFailure<T>(s: seq<Part>, t: seq<Part>, zero: T, decode: Decoder<T>, what: string)
    requires Parsed(s, zero, decode, what).Failure?
    ensures Parsed(s + t, zero, decode, what) == Parsed(s, zero, decode, what)
    decreases |t|
  {
    if t == [] {
      assert s + t == s;
    } else {
      assert (s + t)[..|s + t| - 1] == s + t[..|t| - 1];
      ParsedStopsAtFailure(s, t[..|t| - 1], zero, decode, what);
    }
  }

  /** A reply without text parts parses to the zero value with no error. */
  lemma {:induction false} ParsedWithoutText<T>(parts: seq<Part>, zero: T, decode: Decoder<T>, what: string)
    requires forall k :: 0 <= k < |parts| ==> parts[k].NonText?
    ensures Parsed(parts, zero, decode, what) == Success(zero)
    decreases |parts|
  {
    if parts != [] {
      ParsedWithoutText(parts[..|parts| - 1], zero, decode, what);
    }
  }

  /** A parse fails only at a text part: the first one whose decoding fails. */
  lemma {:induction false} ParsedFailsOnlyOnText<T>(parts: seq<Part>, zero: T, decode: Decoder<T>, what: string)
    requires Parsed(parts, zero, decode, what).Failure?
    ensures exists k :: 0 <= k < |parts| && parts[k].Text? && FailsFirstAt(parts, k, zero, decode, what)
    decreases |parts|
  {
    var n := |parts|;
    if Parsed(parts[..n - 1], zero, decode, what).Failure? {
      ParsedFailsOnlyOnText(parts[..n - 1], zero, decode, what);
      var k :| 0 <= k < n - 1 && parts[..n - 1][k].Text? && FailsFirstAt(parts[..n - 1], k, zero, decode, what);
      FailsFirstInPrefix(parts, n - 1, k, zero, decode, what);
    } else {
      LastPartFails(parts, zero, decode, what);
    }
  }

  lemma FailsFirstInPrefix<T>(parts: seq<Part>, n: nat, k: nat, zero: T, decode: Decoder<T>, what: string)
    requires k < n <= |parts|
    requires parts[..n][k].Text? && FailsFirstAt(parts[..n], k, zero, decode, what)
    ensures parts[k].Text? && FailsFirstAt(parts, k, zero, decode, what)
  {
    PrefixOfPrefix(parts, n, k);
  }

  lemma LastPartFails<T>(parts: seq<Part>, zero: T, decode: Decoder<T>, what: string)
    requires parts != []
    requires Parsed(parts, zero, decode, what).Failure?
    requires Parsed(parts[..|parts| - 1], zero, decode, what).Success?
    ensures Last(parts).Text? && FailsFirstAt(parts, |parts| - 1, zero, decode, what)
  {
    assert parts[..|parts|] == parts;
  }

  lemma PrefixOfPrefix<X>(s: seq<X>, n: nat, k: nat)
    requires k < n <= |s|
    ensures s[..n][..k] == s[..k] && s[..n][..k + 1] == s[..k + 1] && s[..n][k] == s[k]
  {
  }

  /** Part k is where the parse of `parts` first fails. */
  predicate FailsFirstAt<T>(parts: seq<Part>, k: nat, zero: T, decode: Decoder<T>, what: string)
    requires k < |parts|
  {
    Parsed(parts[..k], zero, decode, what).Success? && Parsed(parts[..k + 1], zero, decode, what).Failure?
  }

  /** Parsing one more part: the parse so far, then one step. */
  lemma ParsedNext<T>(done: seq<Part>, parts: seq<Part>, j: nat, zero: T, decode: Decoder<T>, what: string)
    requires j < |parts| && Parsed(done + parts[..j], zero, decode, what).Success?
    ensures Parsed(done + parts[..j + 1], zero, decode, what)
         == Step(Parsed(done + parts[..j], zero, decode, what).value, parts[j], decode, what)
  {
    assert done + parts[..j + 1] == (done + parts[..j]) + [parts[j]];
    ParsedSnoc(done + parts[..j], parts[j], zero, decode, what);
  }

  lemma FlattenNext(cands: seq<Candidate>, i: nat)
    requires i < |cands|
    ensures Flatten(cands[..i + 1]) == Flatten(cands[..i]) + cands[i].parts
  {
    assert cands[..i + 1][..i] == cands[..i];
  }

  /** A failure in candidate i is the failure of the whole reply. */
  lemma ReplyStopsAt<T>(cands: seq<Candidate>, i: nat, zero: T, decode: Decoder<T>, what: string)
    requires i < |cands| && Parsed(Flatten(cands[..i + 1]), zero, decode, what).Failure?
    ensures Parsed(Flatten(cands), zero, decode, what) == Parsed(Flatten(cands[..i + 1]), zero, decode, what)
  {
    var front, back := cands[..i + 1], cands[i + 1..];
    Rejoin(cands, i + 1);
    FlattenAppend(front, back);
    ParsedStopsAtFailure(Flatten(front), Flatten(back), zero, decode, what);
  }

  lemma Rejoin<X>(s: seq<X>, n: nat)
    requires n <= |s|
    ensures s[..n] + s[n..] == s
  {
  }

  lemma SplitAfter<X>(done: seq<X>, parts: seq<X>, j: nat)
    requires j < |parts|
    ensures done + parts == (done + parts[..j + 1]) + parts[j + 1..]
  {
    assert parts == parts[..j + 1] + parts[j + 1..];
  }

  /**
   * The per-candidate loop: each candidate's parts are parsed in turn; the
   * first failure returns an error and no value.
   */
  method ParseCandidates<T>(cands: seq<Candidate>, zero: T, decode: Decoder<T>, what: string)
    returns (r: Result<T, string>)
    ensures r == Parsed(Flatten(cands), zero, decode, what)
  {
    var acc := zero;
    for i := 0 to |cands|
      invariant Parsed(Flatten(cands[..i]), zero, decode, what) == Success(acc)
    {
      FlattenNext(cands, i);
      var res := ParseParts(Flatten(cands[..i]), cands[i].parts, acc, zero, decode, what);
      if res.Failure? {
        ReplyStopsAt(cands, i, zero, decode, what);
        return res;
      }
      acc := res.value;
    }
    assert cands[..|cands|] == cands;
    r := Success(acc);
  }

  /**
   * The per-part loop over one candidate, continuing the parse of the parts
   * `done` before it: each text part is cleaned and decoded over the current
   * value, other parts are skipped, and the first failure ends the loop.
   */
  method ParseParts<T>(ghost done: seq<Part>, parts: seq<Part>, acc0: T, zero: T, decode: Decoder<T>, what: string)
    returns (r: Result<T, string>)
    requires Parsed(done, zero, decode, what) == Success(acc0)
    ensures r == Parsed(done + parts, zero, decode, what)
  {
    var acc := acc0;
    assert done + parts[..0] == done;
    for j := 0 to |parts|
      invariant Parsed(done + parts[..j], zero, decode, what) == Success(acc)
    {
      ParsedNext(done, parts, j, zero, decode, what);
      match parts[j]
      case NonText =>
      case Text(txt) =>
        var clean := CleanJson(txt);
        var d := decode(acc, clean);
        if d.Failure? {
          r := Failure(ParseError(what, d.error, clean));
          SplitAfter(done, parts, j);
          ParsedStopsAtFailure(done + parts[..j + 1], parts[j + 1..], zero, decode, what);
          return;
        }
        acc := d.value;
    }
    assert parts[..|parts|] == parts;
    r := Success(acc);
  }

  /**
   * TranscribeAudio: a failed read of the audio file or a failed call returns
   * that error; otherwise the reply is parsed into timeline entries.
   */
  method TranscribeAudio(readErr: Option<string>, reply: Result<seq<Candidate>, string>,
                         decode: Decoder<seq<TimelineEntry>>)
    returns (r: Result<seq<TimelineEntry>, string>)
    ensures readErr.Some? ==> r == Failure(readErr.value)
    ensures readErr.None? && reply.Failure? ==> r == Failure(reply.error)
    ensures readErr.None? && reply.Success? ==> r == Parsed(Flatten(reply.value), [], decode, "transcription")
  {
    if readErr.Some? {
      return Failure(readErr.value);
    }
    if reply.Failure? {
      return Failure(reply.error);
    }
    r := ParseCandidates(reply.value, [], decode, "transcription");
  }

  /**
   * GenerateStudyGuide: a failed read of the grid image or a failed call
   * returns that error; otherwise the reply is parsed into a study guide,
   * starting from the zero-valued guide.
   */
  method GenerateStudyGuide(readErr: Option<string>, reply: Result<seq<Candidate>, string>,
                            decode: Decoder<StudyGuide>)
    returns (r: Result<StudyGuide, string>)
    ensures readErr.Some? ==> r == Failure(readErr.value)
    ensures readErr.None? && reply.Failure? ==> r == Failure(reply.error)
    ensures readErr.None? && reply.Success? ==> r == Parsed(Flatten(reply.value), EmptyGuide, decode, "study guide")
  {
    if readErr.Some? {
      return Failure(readErr.value);
    }
    if reply.Failure? {
      return Failure(reply.error);
    }
    r := ParseCandidates(reply.value, EmptyGuide, decode, "study guide");
  }
}
