/** safe_parse_json (lines 284-308): the model's reply is stripped, the JSON
    array is cut out of a ```json fence or found by the array pattern, and
    the candidate text is handed to json.loads.

    The fence pattern ```json\s*(\[.*?\])\s*``` is modelled exactly, with the
    leftmost-first, lazy semantics of re.search. The array pattern and
    json.loads are parameters: `findArray` gives group(0) of the first match
    of the array pattern, if any, and `loads` gives the decoded value, or
    None where json.loads raises. ArrayFinder states what a match of the
    array pattern is: a piece of the text searched, from '[' to ']'. */
module Parsing {
  import opened Wrappers
  import opened Text

  const FenceOpen := "```json"
  const FenceClose := "```"

  /** A ']' at k that the closing part \s*``` can follow. */
  predicate ClosesAt(s: string, k: nat) {
    k < |s| && s[k] == ']' && StartsAt(s, SkipSpace(s, k + 1), FenceClose)
  }

  /** The lazy .*? followed by \]\s*```: the first closing ']' at or after k. */
  function CloseFrom(s: string, k: nat): (r: Option<nat>)
    requires k <= |s|
    ensures r.Some? ==> k <= r.value && ClosesAt(s, r.value)
    ensures r.Some? ==> forall i :: k <= i < r.value ==> !ClosesAt(s, i)
    ensures r.None? ==> forall i :: k <= i < |s| ==> !ClosesAt(s, i)
    decreases |s| - k
  {
    if k == |s| then None
    else if ClosesAt(s, k) then Some(k)
    else CloseFrom(s, k + 1)
  }

  /** The match of the fence pattern that starts at p, as group(1). */
  function FenceAt(s: string, p: nat): (r: Option<string>)
    ensures r.Some? ==> StartsAt(s, p, FenceOpen)
    ensures r.Some? ==> |r.value| >= 2 && r.value[0] == '[' && r.value[|r.value| - 1] == ']'
  {
    if !StartsAt(s, p, FenceOpen) then None
    else
      // \s* is greedy and '[' is no whitespace, so it takes the whole run.
      var j := SkipSpace(s, p + |FenceOpen|);
      if j == |s| || s[j] != '[' then None
      else match CloseFrom(s, j + 1)
        case None => None
        case Some(k) => Some(s[j..k + 1])
  }

  /** re.search from position p: where the leftmost match starts. */
  function FirstFence(s: string, p: nat): (r: Option<nat>)
    requires p <= |s|
    ensures r.Some? ==> p <= r.value <= |s| && FenceAt(s, r.value).Some?
    ensures r.Some? ==> forall q :: p <= q < r.value ==> FenceAt(s, q).None?
    ensures r.None? ==> forall q :: p <= q <= |s| ==> FenceAt(s, q).None?
    decreases |s| - p
  {
    if FenceAt(s, p).Some? then Some(p)
    else if p == |s| then None
    else FirstFence(s, p + 1)
  }

  /** group(1) of re.search(fence pattern, s). */
  function FenceMatch(s: string): Option<string> {
    match FirstFence(s, 0)
    case Some(q) => FenceAt(s, q)
    case None => None
  }

  /** The text handed to json.loads for a stripped, non-blank reply. */
  function Candidate(s: string, findArray: string -> Option<string>): string {
    if Contains(s, FenceOpen) then
      match FenceMatch(s)
      case Some(g) => g
      case None => s
    else if !(|s| > 0 && s[0] == '[') then
      match findArray(s)
      case Some(m) => m
      case None => s
    else s
  }

  /** safe_parse_json(gpt_output). A falsy or blank reply gives the empty
      list; otherwise the result is what json.loads makes of the candidate,
      None when it raises. */
  function SafeParseJson<J>(output: Option<string>, emptyList: J,
                            loads: string -> Option<J>, findArray: string -> Option<string>): (r: Option<J>)
    ensures output.None? || AllSpace(output.value) ==> r == Some(emptyList)
    ensures output.Some? && !AllSpace(output.value) ==> r == loads(Candidate(Strip(output.value), findArray))
  {
    StripEmptyIffAllSpace(if output.Some? then output.value else "");
    if output.None? || Strip(output.value) == [] then Some(emptyList)
    else loads(Candidate(Strip(output.value), findArray))
  }

  // ---------------------------------------------------------------------
  // Properties

  /** The reply is only ever read stripped: leading or trailing whitespace
      changes nothing. */
  lemma ParseIgnoresPadding<J>(s: string, emptyList: J,
                               loads: string -> Option<J>, findArray: string -> Option<string>)
    ensures SafeParseJson(Some(s), emptyList, loads, findArray)
         == SafeParseJson(Some(Strip(s)), emptyList, loads, findArray)
  {
    StripIdempotent(s);
    StripEmptyIffAllSpace(s);
    StripEmptyIffAllSpace(Strip(s));
  }

  /** None exactly when the reply is not blank and json.loads rejects the
      candidate. */
  lemma ParseFailsIff<J>(output: Option<string>, emptyList: J,
                         loads: string -> Option<J>, findArray: string -> Option<string>)
    ensures SafeParseJson(output, emptyList, loads, findArray).None? <==>
            output.Some? && !AllSpace(output.value) && loads(Candidate(Strip(output.value), findArray)).None?
  {
  }

  /** A reply holding a fence without a match is handed over whole: the
      array pattern is not tried. */
  lemma UnmatchedFenceKept(s: string, findArray: string -> Option<string>)
    requires Contains(s, FenceOpen) && FenceMatch(s).None?
    ensures Candidate(s, findArray) == s
  {
  }

  /** A reply that starts with '[' and has no fence goes to json.loads as it is. */
  lemma BareArrayKept(s: string, findArray: string -> Option<string>)
    requires !Contains(s, FenceOpen) && |s| > 0 && s[0] == '['
    ensures Candidate(s, findArray) == s
  {
  }

  /** The fence group is a piece of the reply. */
  lemma FenceAtIsSlice(s: string, p: nat)
    requires FenceAt(s, p).Some?
    ensures Contains(s, FenceAt(s, p).value)
  {
    var j := SkipSpace(s, p + |FenceOpen|);
    var k := CloseFrom(s, j + 1).value;
    FenceAtIs(s, p, j, k);
    assert StartsAt(s, j, s[j..k + 1]);
  }

  /** The greedy run of whitespace ends where the whitespace does. */
  lemma {:induction false} SkipSpaceIs(s: string, i: nat, j: nat)
    requires i <= j <= |s|
    requires forall k :: i <= k < j ==> IsSpace(s[k])
    requires j < |s| ==> !IsSpace(s[j])
    ensures SkipSpace(s, i) == j
    decreases j - i
  {
    if i < j {
      SkipSpaceIs(s, i + 1, j);
    }
  }

  /** A closing ']' with no closing ']' before it is the one CloseFrom finds. */
  lemma CloseFromIs(s: string, k: nat, c: nat)
    requires k <= c && ClosesAt(s, c)
    requires forall i :: k <= i < c ==> !ClosesAt(s, i)
    ensures CloseFrom(s, k) == Some(c)
  {
  }

  /** The match at the start of a reply laid out as the fence pattern reads
      it: the opening, whitespace up to '[' at j, no ']' before the ']' at c,
      whitespace up to the closing at m. */
  lemma FenceMatchOfLayout(s: string, j: nat, c: nat, m: nat)
    requires StartsAt(s, 0, FenceOpen) && |FenceOpen| <= j < c < m
    requires StartsAt(s, m, FenceClose)
    requires forall i :: |FenceOpen| <= i < j ==> IsSpace(s[i])
    requires s[j] == '[' && s[c] == ']'
    requires forall i :: j < i < c ==> s[i] != ']'
    requires forall i :: c < i < m ==> IsSpace(s[i])
    ensures FenceMatch(s) == Some(s[j..c + 1])
  {
    SkipSpaceIs(s, |FenceOpen|, j);
    ClosingAt(s, c, m);
    assert forall i :: j + 1 <= i < c ==> !ClosesAt(s, i);
    CloseFromIs(s, j + 1, c);
    FenceAtIs(s, 0, j, c);
  }

  lemma FenceAtIs(s: string, p: nat, j: nat, c: nat)
    requires StartsAt(s, p, FenceOpen) && SkipSpace(s, p + |FenceOpen|) == j
    requires j < |s| && s[j] == '[' && CloseFrom(s, j + 1) == Some(c)
    ensures FenceAt(s, p) == Some(s[j..c + 1])
  {
  }

  /** A ']' followed by whitespace and the closing closes the fence. */
  lemma ClosingAt(s: string, c: nat, m: nat)
    requires c < m && StartsAt(s, m, FenceClose) && s[c] == ']'
    requires forall i :: c < i < m ==> IsSpace(s[i])
    ensures ClosesAt(s, c)
  {
    assert s[m] == '`';
    SkipSpaceIs(s, c + 1, m);
  }

  /** A fenced array: "```json", whitespace, "[" inner "]", whitespace,
      "```". */
  function Fenced(ws1: string, inner: string, ws2: string): string {
    (FenceOpen + ws1) + ("[" + inner + "]") + (ws2 + FenceClose)
  }

  /** The fence pattern gives an array holding no ']' back out of its fence. */
  lemma FenceExtracts(ws1: string, inner: string, ws2: string)
    requires AllSpace(ws1) && AllSpace(ws2)
    requires forall i :: 0 <= i < |inner| ==> inner[i] != ']'
    ensures FenceMatch(Fenced(ws1, inner, ws2)) == Some("[" + inner + "]")
  {
    var p, q, r := FenceOpen + ws1, "[" + inner + "]", ws2 + FenceClose;
    var s := p + q + r;
    var j, c := |p|, |p| + |q| - 1;
    var m := |p| + |q| + |ws2|;
    assert s[..|FenceOpen|] == FenceOpen;
    assert s[j..c + 1] == q;
    assert forall i :: j < i < c ==> s[i] == inner[i - j - 1];
    assert s[m..m + |FenceClose|] == FenceClose;
    FenceMatchOfLayout(s, j, c, m);
  }

  /** A reply that is exactly a fenced array, with no padding of its own,
      has that array decoded. */
  lemma FencedReplyDecoded<J>(ws1: string, inner: string, ws2: string, emptyList: J,
                              loads: string -> Option<J>, findArray: string -> Option<string>)
    requires AllSpace(ws1) && AllSpace(ws2)
    requires forall i :: 0 <= i < |inner| ==> inner[i] != ']'
    ensures SafeParseJson(Some(Fenced(ws1, inner, ws2)), emptyList, loads, findArray)
         == loads("[" + inner + "]")
  {
    var s := Fenced(ws1, inner, ws2);
    FenceExtracts(ws1, inner, ws2);
    FencedTrimmed(ws1, inner, ws2);
    StripTrimmed(s);
    assert Candidate(s, findArray) == "[" + inner + "]";
  }

  /** A fenced array starts with the opening and ends with a backquote. */
  lemma FencedTrimmed(ws1: string, inner: string, ws2: string)
    ensures var s := Fenced(ws1, inner, ws2);
            && StartsAt(s, 0, FenceOpen) && Contains(s, FenceOpen)
            && !IsSpace(s[0]) && !IsSpace(s[|s| - 1]) && !AllSpace(s)
  {
    var s := Fenced(ws1, inner, ws2);
    assert s[..|FenceOpen|] == FenceOpen;
    assert StartsAt(s, 0, FenceOpen);
    assert s[|s| - 1] == '`';
  }

  // ---------------------------------------------------------------------
  // The array pattern and the three shapes of reply

  /** Text that starts with '[' and ends with ']'. */
  predicate Bracketed(m: string) {
    |m| >= 2 && m[0] == '[' && m[|m| - 1] == ']'
  }

  /** What the array pattern \[\s*{.*?}\s*(?:,\s*{.*?}\s*)*\] promises of a
      match: group(0) is a piece of the text searched, from '[' to ']'. */
  ghost predicate ArrayFinder(findArray: string -> Option<string>) {
    forall s :: findArray(s).Some? ==> Bracketed(findArray(s).value) && Contains(s, findArray(s).value)
  }

  /** A piece of a piece of s is a piece of s. */
  lemma ContainsTrans(s: string, m: string, p: string)
    requires Contains(s, m) && Contains(m, p)
    ensures Contains(s, p)
  {
    var i: nat :| i <= |s| && StartsAt(s, i, m);
    var j: nat :| j <= |m| && StartsAt(m, j, p);
    forall k | 0 <= k < |p|
      ensures s[i + j + k] == p[k]
    {
      assert p[k] == m[j..j + |p|][k] == m[j + k];
      assert m[j + k] == s[i..i + |m|][j + k];
    }
    assert s[i + j..i + j + |p|] == p;
    assert StartsAt(s, i + j, p);
  }

  /** Whatever branch is taken, json.loads gets a piece of the stripped
      reply: the reply itself, or a bracketed piece that the fence pattern
      or the array pattern cut out. */
  lemma CandidateInReply(s: string, findArray: string -> Option<string>)
    requires ArrayFinder(findArray)
    ensures Contains(s, Candidate(s, findArray))
    ensures Candidate(s, findArray) != s ==> Bracketed(Candidate(s, findArray))
  {
    var c := Candidate(s, findArray);
    if Contains(s, FenceOpen) && FenceMatch(s).Some? {
      FenceMatchInReply(s);
      assert c == FenceMatch(s).value;
    } else if !Contains(s, FenceOpen) && !(|s| > 0 && s[0] == '[') && findArray(s).Some? {
      assert c == findArray(s).value;
    } else {
      assert c == s;
      assert StartsAt(s, 0, s);
    }
  }

  /** The fence's array is a bracketed piece of the reply. */
  lemma FenceMatchInReply(s: string)
    requires FenceMatch(s).Some?
    ensures Contains(s, FenceMatch(s).value) && Bracketed(FenceMatch(s).value)
  {
    FenceAtIsSlice(s, FirstFence(s, 0).value);
  }

  /** Prose around an array: with no fence and no leading '[', the piece
      the array pattern finds is what json.loads decodes. */
  lemma ProseReplyDecoded<J>(s: string, emptyList: J,
                             loads: string -> Option<J>, findArray: string -> Option<string>)
    requires !AllSpace(s)
    requires !Contains(Strip(s), FenceOpen) && !(|Strip(s)| > 0 && Strip(s)[0] == '[')
    requires findArray(Strip(s)).Some?
    ensures Candidate(Strip(s), findArray) == findArray(Strip(s)).value
    ensures SafeParseJson(Some(s), emptyList, loads, findArray) == loads(findArray(Strip(s)).value)
  {
  }

  /** A bracketed text without a fence is decoded as it is. */
  lemma BareReplyDecoded<J>(m: string, emptyList: J,
                            loads: string -> Option<J>, findArray: string -> Option<string>)
    requires Bracketed(m) && !Contains(m, FenceOpen)
    ensures SafeParseJson(Some(m), emptyList, loads, findArray) == loads(m)
  {
    StripTrimmed(m);
    assert !IsSpace(m[0]);
  }

  /** An array in prose parses as the array alone would. */
  lemma ProseMatchesBare<J>(s: string, emptyList: J,
                            loads: string -> Option<J>, findArray: string -> Option<string>)
    requires ArrayFinder(findArray)
    requires !AllSpace(s)
    requires !Contains(Strip(s), FenceOpen) && !(|Strip(s)| > 0 && Strip(s)[0] == '[')
    requires findArray(Strip(s)).Some?
    ensures SafeParseJson(Some(s), emptyList, loads, findArray)
         == SafeParseJson(Some(findArray(Strip(s)).value), emptyList, loads, findArray)
  {
    var t := Strip(s);
    var m := findArray(t).value;
    ProseReplyDecoded(s, emptyList, loads, findArray);
    if Contains(m, FenceOpen) {
      ContainsTrans(t, m, FenceOpen);
    }
    BareReplyDecoded(m, emptyList, loads, findArray);
  }

  /** Bracketing text without a fence adds no fence. */
  lemma NoFenceAdded(inner: string)
    requires !Contains(inner, FenceOpen)
    ensures !Contains("[" + inner + "]", FenceOpen)
  {
    var q := "[" + inner + "]";
    if Contains(q, FenceOpen) {
      var i: nat :| i <= |q| && StartsAt(q, i, FenceOpen);
      assert q[i] == '`';
      assert q[i + |FenceOpen| - 1] == 'n';
      assert 1 <= i && i + |FenceOpen| <= |q| - 1;
      assert inner[i - 1..i - 1 + |FenceOpen|] == q[i..i + |FenceOpen|];
      assert StartsAt(inner, i - 1, FenceOpen);
    }
  }

  /** A fenced array parses as the bare array would. */
  lemma FencedMatchesBare<J>(ws1: string, inner: string, ws2: string, emptyList: J,
                             loads: string -> Option<J>, findArray: string -> Option<string>)
    requires AllSpace(ws1) && AllSpace(ws2)
    requires forall i :: 0 <= i < |inner| ==> inner[i] != ']'
    requires !Contains(inner, FenceOpen)
    ensures SafeParseJson(Some(Fenced(ws1, inner, ws2)), emptyList, loads, findArray)
         == SafeParseJson(Some("[" + inner + "]"), emptyList, loads, findArray)
  {
    FencedReplyDecoded(ws1, inner, ws2, emptyList, loads, findArray);
    NoFenceAdded(inner);
    BareReplyDecoded("[" + inner + "]", emptyList, loads, findArray);
  }

}
