/** The argument tokenizer `parse_args` of parser.c: a line is cut with strsep at every
    delimiter character, empty pieces are dropped, and the non-empty ones are stored, in
    order, in a calloc'ed array of 256 slots; unused slots stay NULL. */
module Tokenizer {

  /** A C pointer that may be NULL. */
  datatype Option<T> = None | Some(value: T)

  /** Number of slots parse_args allocates. */
  const MaxArgs: nat := 256

  /** The delimiter string parse_file hands to parse_args. */
  const Blank: string := " "

  predicate DelimiterFree(t: string, delims: seq<char>)
  {
    forall i :: 0 <= i < |t| ==> t[i] !in delims
  }

  /** Length of the longest prefix of `s` that holds no delimiter (strcspn). */
  function WordLength(s: string, delims: seq<char>): (n: nat)
    ensures n <= |s|
    ensures DelimiterFree(s[..n], delims)
    ensures n < |s| ==> s[n] in delims
  {
    if |s| == 0 || s[0] in delims then 0
    else
      var n := 1 + WordLength(s[1..], delims);
      assert s[..n] == [s[0]] + s[1..][..n - 1];
      n
  }

  /** What one call `token = strsep(&line, delims)` returns and leaves in `line`:
      `rest` is None when strsep set `line` to NULL. */
  datatype Split = Split(token: string, rest: Option<string>)

  function StrSep(line: string, delims: seq<char>): (r: Split)
    ensures DelimiterFree(r.token, delims)
    ensures r.rest.None? ==> r.token == line
    ensures r.rest.Some? ==>
      && |r.token| < |line|
      && line[|r.token|] in delims
      && line == r.token + [line[|r.token|]] + r.rest.value
  {
    var n := WordLength(line, delims);
    if n == |line| then
      assert line[..n] == line;
      Split(line, None)
    else
      assert line == line[..n] + [line[n]] + line[n + 1..];
      Split(line[..n], Some(line[n + 1..]))
  }

  /** Every non-empty piece strsep cuts from `line`, left to right. */
  function Tokens(line: string, delims: seq<char>): (ts: seq<string>)
    ensures forall i :: 0 <= i < |ts| ==> ts[i] != "" && DelimiterFree(ts[i], delims)
    decreases |line|
  {
    var sp := StrSep(line, delims);
    var more := if sp.rest.Some? then Tokens(sp.rest.value, delims) else [];
    if sp.token == "" then more else [sp.token] + more
  }

  /** The array parse_args returns, in functional form: slot i holds token i while tokens
      last, and NULL after that. */
  function ParseArgs(line: string, delims: seq<char>): (slots: seq<Option<string>>)
    ensures |slots| == MaxArgs
    ensures forall i :: 0 <= i < MaxArgs ==> (slots[i].Some? <==> i < |Tokens(line, delims)|)
  {
    var ts := Tokens(line, delims);
    seq(MaxArgs, i requires 0 <= i < MaxArgs => if i < |ts| then Some(ts[i]) else None)
  }

  /** parse_args itself: the strsep loop over a calloc'ed array of MaxArgs NULL slots,
      stopping when `line` becomes NULL or the array is full. */
  method ParseArgsLoop(line: string, delims: seq<char>) returns (slots: seq<Option<string>>)
    ensures |slots| == MaxArgs
    ensures forall i :: 0 <= i < MaxArgs && i < |Tokens(line, delims)| ==>
      slots[i] == Some(Tokens(line, delims)[i])
    ensures forall i :: 0 <= i < MaxArgs && |Tokens(line, delims)| <= i ==> slots[i] == None
    ensures line == "" ==> forall i :: 0 <= i < MaxArgs ==> slots[i] == None
    ensures slots == ParseArgs(line, delims)
  {
    ghost var all := Tokens(line, delims);
    slots := seq(MaxArgs, _ => None);
    var x := 0;
    var rest: Option<string> := Some(line);
    while rest.Some? && x < MaxArgs
      invariant x <= MaxArgs && x <= |all| && |slots| == MaxArgs
      invariant all[x..] == Remaining(rest, delims)
      invariant forall i :: 0 <= i < MaxArgs ==> slots[i] == if i < x then Some(all[i]) else None
      decreases if rest.Some? then |rest.value| + 1 else 0
    {
      var sp := StrSep(rest.value, delims);
      ParseArgsStep(all, x, rest.value, delims);
      if sp.token != "" {
        slots := slots[x := Some(sp.token)];
        x := x + 1;
      }
      rest := sp.rest;
    }
    FilledSlots(line, delims, slots, x);
  }

  /** One round of the strsep loop: a non-empty token is the next one still to come. */
  lemma ParseArgsStep(all: seq<string>, x: nat, rest: string, delims: seq<char>)
    requires x <= |all| && all[x..] == Tokens(rest, delims)
    ensures var sp := StrSep(rest, delims);
      if sp.token != "" then
        x < |all| && all[x] == sp.token && all[x + 1..] == Remaining(sp.rest, delims)
      else all[x..] == Remaining(sp.rest, delims)
  {
    TokensUnfold(rest, delims);
    var sp := StrSep(rest, delims);
    if sp.token != "" {
      assert all[x..][0] == all[x];
      assert all[x..][1..] == all[x + 1..];
    }
  }

  /** When the loop stops, the array is ParseArgs: either every token is stored or the
      array is full. */
  lemma FilledSlots(line: string, delims: seq<char>, slots: seq<Option<string>>, x: nat)
    requires |slots| == MaxArgs && x <= MaxArgs && x <= |Tokens(line, delims)|
    requires x == MaxArgs || Tokens(line, delims)[x..] == []
    requires forall i :: 0 <= i < MaxArgs ==>
      slots[i] == if i < x then Some(Tokens(line, delims)[i]) else None
    ensures forall i :: 0 <= i < MaxArgs ==>
      slots[i] == if i < |Tokens(line, delims)| then Some(Tokens(line, delims)[i]) else None
    ensures slots == ParseArgs(line, delims)
  {
    var ts := Tokens(line, delims);
    assert x == MaxArgs || x == |ts|;
    assert forall i :: 0 <= i < MaxArgs ==> slots[i] == ParseArgs(line, delims)[i];
  }

  /** The tokens still to come from what strsep left in `line`. */
  function Remaining(rest: Option<string>, delims: seq<char>): seq<string>
  {
    if rest.Some? then Tokens(rest.value, delims) else []
  }

  lemma TokensUnfold(line: string, delims: seq<char>)
    ensures var sp := StrSep(line, delims);
      Tokens(line, delims)
        == (if sp.token == "" then [] else [sp.token]) + Remaining(sp.rest, delims)
  {
  }

  /** The tokens actually stored: the leading non-NULL slots. */
  function Present(slots: seq<Option<string>>): seq<string>
  {
    if slots == [] || slots[0].None? then [] else [slots[0].value] + Present(slots[1..])
  }

  /** The tokens joined back into one string, `sep` between neighbours. */
  function Join(ts: seq<string>, sep: char): string
  {
    if ts == [] then []
    else if |ts| == 1 then ts[0]
    else ts[0] + [sep] + Join(ts[1..], sep)
  }

  /** Where a left-to-right scan stands: before any kept character, inside a word, or in a
      delimiter run that follows a word. */
  datatype Scan = Start | InWord | Gap

  /** Character-level reference for the tokenizer: drops leading and trailing delimiters
      and collapses every inner run of delimiters into the single character `sep`. */
  function SqueezeFrom(s: string, delims: seq<char>, sep: char, at: Scan): string
    decreases |s|
  {
    if s == [] then []
    else if s[0] in delims then
      SqueezeFrom(s[1..], delims, sep, if at == Start then Start else Gap)
    else
      (if at == Gap then [sep, s[0]] else [s[0]]) + SqueezeFrom(s[1..], delims, sep, InWord)
  }

  function Squeeze(s: string, delims: seq<char>, sep: char): string
  {
    SqueezeFrom(s, delims, sep, Start)
  }

  lemma {:induction false} WordLengthAppend(w: string, y: string, delims: seq<char>)
    requires DelimiterFree(w, delims)
    ensures WordLength(w + y, delims) == |w| + WordLength(y, delims)
    decreases |w|
  {
    if w != [] {
      assert (w + y)[1..] == w[1..] + y;
      WordLengthAppend(w[1..], y, delims);
    } else {
      assert w + y == y;
    }
  }

  /** strsep on a word followed by a delimiter returns the word and resumes after it. */
  lemma StrSepWord(w: string, d: char, x: string, delims: seq<char>)
    requires DelimiterFree(w, delims) && d in delims
    ensures StrSep(w + [d] + x, delims) == Split(w, Some(x))
  {
    WordLengthAppend(w, [d] + x, delims);
    assert w + [d] + x == w + ([d] + x);
    assert (w + [d] + x)[..|w|] == w;
    assert (w + [d] + x)[|w| + 1..] == x;
  }

  /** strsep on a delimiter-free string returns all of it and sets the line to NULL. */
  lemma StrSepLast(w: string, delims: seq<char>)
    requires DelimiterFree(w, delims)
    ensures StrSep(w, delims) == Split(w, None)
  {
    WordLengthAppend(w, [], delims);
    assert w + [] == w;
  }

  /** Cutting at a delimiter splits the token list at the same place: tokens keep the
      left-to-right order of the line. */
  lemma {:induction false} TokensSplit(a: string, d: char, b: string, delims: seq<char>)
    requires d in delims
    ensures Tokens(a + [d] + b, delims) == Tokens(a, delims) + Tokens(b, delims)
    decreases |a|
  {
    var sp := StrSep(a, delims);
    var first: seq<string> := if sp.token == "" then [] else [sp.token];
    if sp.rest.None? {
      TokensCons(a, d, b, delims);
      TokensUnfold(a, delims);
      assert Tokens(a, delims) == first + [] == first;
    } else {
      var a' := sp.rest.value;
      var d' := a[|sp.token|];
      var b' := a' + [d] + b;
      assert a + [d] + b == sp.token + [d'] + b' by {
        assert a == sp.token + [d'] + a';
        Associative(sp.token + [d'], a', [d] + b);
      }
      TokensCons(sp.token, d', a', delims);
      TokensCons(sp.token, d', b', delims);
      TokensSplit(a', d, b, delims);
      Associative(first, Tokens(a', delims), Tokens(b, delims));
    }
  }

  /** A delimiter-free piece and the delimiter after it contribute the piece alone, if it is
      not empty, ahead of the tokens of what follows. */
  lemma TokensCons(t: string, c: char, r: string, delims: seq<char>)
    requires DelimiterFree(t, delims) && c in delims
    ensures Tokens(t + [c] + r, delims) == (if t == "" then [] else [t]) + Tokens(r, delims)
  {
    StrSepWord(t, c, r, delims);
    TokensUnfold(t + [c] + r, delims);
  }

  lemma Associative<T>(x: seq<T>, y: seq<T>, z: seq<T>)
    ensures x + (y + z) == (x + y) + z
  {
  }

  /** A non-empty word without delimiters is exactly one token. */
  lemma TokensOfWord(w: string, delims: seq<char>)
    requires w != [] && DelimiterFree(w, delims)
    ensures Tokens(w, delims) == [w]
  {
    StrSepLast(w, delims);
  }

  lemma {:induction false} SqueezeWord(w: string, x: string, delims: seq<char>, sep: char, at: Scan)
    requires w != [] && DelimiterFree(w, delims)
    ensures SqueezeFrom(w + x, delims, sep, at)
      == (if at == Gap then [sep] else []) + w + SqueezeFrom(x, delims, sep, InWord)
    decreases |w|
  {
    assert (w + x)[0] == w[0];
    assert (w + x)[1..] == w[1..] + x;
    if |w| > 1 {
      SqueezeWord(w[1..], x, delims, sep, InWord);
      assert w == [w[0]] + w[1..];
    } else {
      assert w == [w[0]];
    }
  }

  /** From the two scan states met at a strsep boundary, Start and Gap, `s` squeezes to
      its joined tokens, after Gap with a separator in front when any token follows. */
  predicate SqueezeMatches(s: string, delims: seq<char>, sep: char)
  {
    var ts := Tokens(s, delims);
    && SqueezeFrom(s, delims, sep, Start) == Join(ts, sep)
    && SqueezeFrom(s, delims, sep, Gap) == if ts == [] then [] else [sep] + Join(ts, sep)
  }

  lemma {:induction false} SqueezeTokens(s: string, delims: seq<char>, sep: char)
    ensures SqueezeMatches(s, delims, sep)
    decreases |s|
  {
    var sp := StrSep(s, delims);
    if sp.rest.None? {
      if sp.token == "" {
        assert s == [];
      } else {
        SqueezeLastWord(s, delims, sep);
        TokensOfWord(s, delims);
      }
    } else {
      var r := sp.rest.value;
      SqueezeTokens(r, delims, sep);
      if sp.token == "" {
        SqueezeAfterDelimiter(s, r, delims, sep);
      } else {
        assert s == sp.token + [s[|sp.token|]] + r;
        SqueezeAfterWord(s, sp.token, s[|sp.token|], r, delims, sep);
      }
    }
  }

  lemma SqueezeAfterDelimiter(s: string, r: string, delims: seq<char>, sep: char)
    requires s != [] && s[0] in delims && r == s[1..]
    requires SqueezeMatches(r, delims, sep)
    ensures SqueezeMatches(s, delims, sep)
  {
    SqueezeLeadingDelimiter(s, r, delims, sep, Start);
    SqueezeLeadingDelimiter(s, r, delims, sep, Gap);
    StrSepLeadingDelimiter(s, delims);
    TokensUnfold(s, delims);
  }

  lemma SqueezeAfterWord(s: string, w: string, d: char, r: string, delims: seq<char>, sep: char)
    requires w != [] && DelimiterFree(w, delims) && d in delims && s == w + [d] + r
    requires SqueezeMatches(r, delims, sep)
    ensures SqueezeMatches(s, delims, sep)
  {
    TokensCons(w, d, r, delims);
    SqueezeWordDelimiter(w, d, r, delims, sep, Start);
    SqueezeWordDelimiter(w, d, r, delims, sep, Gap);
    JoinAfterWord(w, SqueezeFrom(r, delims, sep, Gap), Tokens(r, delims), sep);
  }

  /** A word in front of what the scan emits from Gap is the join with that word first. */
  lemma JoinAfterWord(w: string, gap: string, ts: seq<string>, sep: char)
    requires gap == if ts == [] then [] else [sep] + Join(ts, sep)
    ensures [] + w + gap == Join([w] + ts, sep)
    ensures [sep] + w + gap == [sep] + Join([w] + ts, sep)
  {
    JoinCons(w, ts, sep);
    if ts != [] {
      Associative(w, [sep], Join(ts, sep));
    }
  }

  lemma StrSepLeadingDelimiter(s: string, delims: seq<char>)
    requires s != [] && s[0] in delims
    ensures StrSep(s, delims) == Split("", Some(s[1..]))
  {
  }

  lemma SqueezeLastWord(w: string, delims: seq<char>, sep: char)
    requires w != [] && DelimiterFree(w, delims)
    ensures SqueezeFrom(w, delims, sep, Start) == w
    ensures SqueezeFrom(w, delims, sep, Gap) == [sep] + w
  {
    SqueezeWord(w, [], delims, sep, Start);
    SqueezeWord(w, [], delims, sep, Gap);
    assert w + [] == w;
  }

  /** A delimiter moves the scan from Start to Start and from anywhere else to Gap. */
  lemma SqueezeLeadingDelimiter(s: string, r: string, delims: seq<char>, sep: char, at: Scan)
    requires s != [] && s[0] in delims && r == s[1..]
    ensures SqueezeFrom(s, delims, sep, at)
      == SqueezeFrom(r, delims, sep, if at == Start then Start else Gap)
  {
  }

  /** A word and the delimiter after it: the scan emits the word and stands in Gap. */
  lemma SqueezeWordDelimiter(w: string, d: char, r: string, delims: seq<char>, sep: char, at: Scan)
    requires w != [] && DelimiterFree(w, delims) && d in delims
    ensures SqueezeFrom(w + [d] + r, delims, sep, at)
      == (if at == Gap then [sep] else []) + w + SqueezeFrom(r, delims, sep, Gap)
  {
    var x := [d] + r;
    assert w + [d] + r == w + x;
    SqueezeWord(w, x, delims, sep, at);
    SqueezeLeadingDelimiter(x, r, delims, sep, InWord);
  }

  lemma JoinCons(w: string, ts: seq<string>, sep: char)
    ensures Join([w] + ts, sep) == if ts == [] then w else w + [sep] + Join(ts, sep)
  {
    assert ([w] + ts)[1..] == ts;
  }

  /** Joining the tokens with the separator gives the line with delimiter runs collapsed
      and leading and trailing delimiters removed. */
  lemma JoinTokens(s: string, delims: seq<char>, sep: char)
    ensures Join(Tokens(s, delims), sep) == Squeeze(s, delims, sep)
  {
    SqueezeTokens(s, delims, sep);
    assert SqueezeMatches(s, delims, sep);
  }

  lemma {:induction false} PresentOfFilled(slots: seq<Option<string>>, ts: seq<string>)
    requires |ts| <= |slots|
    requires forall i :: 0 <= i < |slots| ==> slots[i] == if i < |ts| then Some(ts[i]) else None
    ensures Present(slots) == ts
    decreases |slots|
  {
    if ts != [] {
      PresentOfFilled(slots[1..], ts[1..]);
      assert ts == [ts[0]] + ts[1..];
    }
  }

  /** Round trip of parse_args: when every token fits in the array, the stored tokens
      joined with the separator are the line with delimiter runs collapsed and trimmed. */
  lemma ParseArgsRoundTrip(line: string, delims: seq<char>, sep: char)
    requires |Tokens(line, delims)| <= MaxArgs
    ensures Join(Present(ParseArgs(line, delims)), sep) == Squeeze(line, delims, sep)
  {
    PresentOfFilled(ParseArgs(line, delims), Tokens(line, delims));
    JoinTokens(line, delims, sep);
  }

  /** The other round trip: words without delimiters, joined with a delimiter, tokenize
      back to the same words. */
  lemma {:induction false} TokensOfJoin(ws: seq<string>, sep: char, delims: seq<char>)
    requires sep in delims
    requires forall i :: 0 <= i < |ws| ==> ws[i] != "" && DelimiterFree(ws[i], delims)
    ensures Tokens(Join(ws, sep), delims) == ws
    decreases |ws|
  {
    if |ws| == 1 {
      TokensOfWord(ws[0], delims);
    } else if |ws| > 1 {
      var w, more := ws[0], ws[1..];
      var tail := Join(more, sep);
      assert Join(ws, sep) == w + [sep] + tail;
      assert forall i :: 0 <= i < |more| ==> more[i] == ws[i + 1];
      TokensOfJoin(more, sep, delims);
      TokensSplit(w, sep, tail, delims);
      TokensOfWord(w, delims);
      assert ws == [w] + more;
    }
  }
}
