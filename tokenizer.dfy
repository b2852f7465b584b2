/**
 * The integer tokenizer (src/lang/tokenizer.rs).
 *
 * A `TokenIter` walks a source text with a cursor. Each call of `next`
 * matches the anchored pattern `^-?[0-9]+` at the cursor: a match yields an
 * `Int` token and moves the cursor past it, no match yields one `Invalid`
 * error and switches the iterator off for good.
 *
 * Texts are taken to be ASCII, so character counts and byte offsets agree.
 * `isize` is taken to be 64 bits wide. A Rust panic (an integer literal out
 * of range, a slice past the end of the text) is the explicit outcome
 * `Panic`.
 */
module Tokenizer {
  import opened Wrappers

  /** What a call does: return normally with a value, or panic. */
  datatype Outcome<+T> = Normal(value: T) | Panic

  datatype Token = Int(value: int)

  datatype TokenErr = Invalid(pos: nat)

  const IsizeMin: int := -0x8000_0000_0000_0000
  const IsizeMax: int := 0x7FFF_FFFF_FFFF_FFFF

  // ---------------------------------------------------------------------------
  // Decimal digits
  // ---------------------------------------------------------------------------

  predicate IsDigit(c: char)
  {
    '0' <= c <= '9'
  }

  predicate AllDigits(s: seq<char>)
  {
    forall i :: 0 <= i < |s| ==> IsDigit(s[i])
  }

  /** The length of the run of digits at the front of `s`: the longest
      all-digit prefix. */
  function DigitRun(s: seq<char>): (n: nat)
    ensures n <= |s| && AllDigits(s[..n])
    ensures n == |s| || !IsDigit(s[n])
  {
    if s == [] || !IsDigit(s[0]) then 0
    else
      var k := DigitRun(s[1..]);
      assert s[..k + 1] == [s[0]] + s[1..][..k];
      1 + k
  }

  /** The value of a string of digits, most significant first. */
  function Value(ds: seq<char>): nat
    requires AllDigits(ds)
  {
    if ds == [] then 0
    else Value(ds[..|ds| - 1]) * 10 + (ds[|ds| - 1] - '0') as nat
  }

  /** The digits of a natural number, without leading zeros. */
  function Digits(n: nat): (ds: seq<char>)
    ensures ds != [] && AllDigits(ds)
  {
    var last := ['0' + (n % 10) as char];
    if n < 10 then last else Digits(n / 10) + last
  }

  /** Writing a number out in decimal and reading it back gives the number. */
  lemma {:induction false} ValueDigits(n: nat)
    ensures Value(Digits(n)) == n
  {
    var ds := Digits(n);
    if n >= 10 {
      ValueDigits(n / 10);
      assert ds[..|ds| - 1] == Digits(n / 10);
    }
  }

  // ---------------------------------------------------------------------------
  // The Int matcher and Token::from
  // ---------------------------------------------------------------------------

  /** A string the pattern `-?[0-9]+` matches as a whole. */
  predicate IntLexeme(t: seq<char>)
  {
    if t != [] && t[0] == '-' then |t| >= 2 && AllDigits(t[1..]) else t != [] && AllDigits(t)
  }

  /** The matcher `^-?[0-9]+`: the length of the match at the front of `s`,
      which is the longest prefix of `s` the pattern matches as a whole. */
  function MatchInt(s: seq<char>): (r: Option<nat>)
    ensures r.Some? ==> 1 <= r.value <= |s| && IntLexeme(s[..r.value])
    ensures r.Some? ==> forall n :: r.value < n <= |s| ==> !IntLexeme(s[..n])
    ensures r.None? ==> forall n :: 0 <= n <= |s| ==> !IntLexeme(s[..n])
  {
    if s != [] && s[0] == '-' then
      var k := DigitRun(s[1..]);
      assert forall n :: 1 <= n <= |s| ==> s[..n][1..] == s[1..][..n - 1];
      if k == 0 then None else Some(1 + k)
    else
      var k := DigitRun(s);
      assert forall n :: k < n <= |s| ==> s[..n][k] == s[k];
      if k == 0 then None else Some(k)
  }

  /** `str::parse::<isize>`: an optional sign, then one or more digits, and a
      value inside the range of `isize`. */
  function ParseIsize(val: seq<char>): (r: Option<int>)
    ensures r.Some? ==> IsizeMin <= r.value <= IsizeMax
  {
    if val == [] then None
    else
      var neg := val[0] == '-';
      var ds := if val[0] == '-' || val[0] == '+' then val[1..] else val;
      if ds == [] || !AllDigits(ds) then None
      else
        var v: int := if neg then -(Value(ds) as int) else Value(ds);
        if IsizeMin <= v <= IsizeMax then Some(v) else None
  }

  /** The decimal form of an integer, with a minus sign when negative. */
  function Show(v: int): (s: seq<char>)
    ensures IntLexeme(s)
  {
    if v < 0 then
      var ds := Digits(-v);
      assert (['-'] + ds)[1..] == ds;
      ['-'] + ds
    else Digits(v)
  }

  /** Every integer of `isize` parses back from its decimal form. */
  lemma ParseShow(v: int)
    requires IsizeMin <= v <= IsizeMax
    ensures ParseIsize(Show(v)) == Some(v)
  {
    var s := Show(v);
    if v < 0 {
      var ds := Digits(-v);
      ValueDigits(-v);
      assert s == ['-'] + ds;
      assert s[0] == '-' && s[1..] == ds;
    } else {
      ValueDigits(v);
      assert s == Digits(v) && s[0] != '-' && s[0] != '+';
    }
  }

  /** `Token::from((idx, val))`: matcher 0 is the Int matcher, whose text is
      parsed as an `isize`; a failed parse or any other matcher index panics. */
  function TokenFrom(idx: nat, val: seq<char>): (r: Outcome<Token>)
    ensures r.Normal? <==> idx == 0 && ParseIsize(val).Some?
    ensures r.Normal? ==> r.value == Int(ParseIsize(val).value)
  {
    if idx != 0 then Panic
    else
      match ParseIsize(val)
      case Some(v) => Normal(Int(v))
      case None => Panic
  }

  /** `take_from` with the one Int matcher: the token at the front of `text`
      and its length, None when the matcher does not match. */
  function TakeFrom(text: seq<char>): (r: Outcome<Option<(Token, nat)>>)
    ensures r == Normal(None) <==> MatchInt(text).None?
    ensures r.Panic? <==> MatchInt(text).Some? && ParseIsize(text[..MatchInt(text).value]).None?
    ensures r.Normal? && r.value.Some? ==>
              && MatchInt(text) == Some(r.value.value.1)
              && r.value.value.0 == Int(ParseIsize(text[..r.value.value.1]).value)
  {
    match MatchInt(text)
    case None => Normal(None)
    case Some(n) =>
      match TokenFrom(0, text[..n])
      case Panic => Panic
      case Normal(tok) => Normal(Some((tok, n)))
  }

  /** A number in the range of `isize`, followed by anything but a digit, is
      taken whole, with its own value. */
  lemma TakeShown(v: int, rest: seq<char>)
    requires IsizeMin <= v <= IsizeMax
    requires rest == [] || !IsDigit(rest[0])
    ensures TakeFrom(Show(v) + rest) == Normal(Some((Int(v), |Show(v)|)))
  {
    var s := Show(v);
    var t := s + rest;
    assert t[..|s|] == s;
    ParseShow(v);
    LexemeStops(t, |s|);
    assert MatchInt(t) == Some(|s|);
  }

  /** No match of `-?[0-9]+` reaches past a character that is not a digit. */
  lemma LexemeStops(t: seq<char>, k: nat)
    requires 1 <= k <= |t| && (k == |t| || !IsDigit(t[k]))
    ensures forall n :: k < n <= |t| ==> !IntLexeme(t[..n])
  {
    forall n | k < n <= |t| ensures !IntLexeme(t[..n]) {
      var u := t[..n];
      assert u[k] == t[k];
      if u[0] == '-' {
        assert u[1..][k - 1] == t[k];
      }
    }
  }

  // ---------------------------------------------------------------------------
  // TokenIter
  // ---------------------------------------------------------------------------

  /** One call of `next` from cursor `pos` with error flag `err`: what it
      returns, and the cursor and the flag after it. */
  function NextStep(src: seq<char>, end: nat, pos: nat, err: bool)
    : (r: (Outcome<Option<Result<Token, TokenErr>>>, nat, bool))
    ensures err || pos >= end ==> r == (Normal(None), pos, err)
    ensures r.0 == Normal(None) ==> r.1 == pos && r.2 == err && (err || pos >= end)
    ensures r.0.Normal? && r.0.value.Some? && r.0.value.value.Ok? ==>
              && !err && !r.2 && pos < r.1 <= end <= |src|
              && IntLexeme(src[pos..r.1]) && ParseIsize(src[pos..r.1]).Some?
              && r.0.value.value.value == Int(ParseIsize(src[pos..r.1]).value)
    ensures r.0.Normal? && r.0.value.Some? && r.0.value.value.Err? ==>
              !err && r.0.value.value.error == Invalid(pos) && r.1 == pos && r.2
    // the token taken is the longest match, and the error comes exactly when nothing matches
    ensures r.0.Normal? && r.0.value.Some? && r.0.value.value.Ok? ==>
              MatchInt(src[pos..end]) == Some(r.1 - pos)
    ensures !err && pos < end <= |src| ==>
              (r.0 == Normal(Some(Err(Invalid(pos)))) <==> MatchInt(src[pos..end]).None?)
    ensures r.0.Panic? <==>
              && !err && pos < end
              && (end > |src| || (MatchInt(src[pos..end]).Some?
                                  && ParseIsize(src[pos..end][..MatchInt(src[pos..end]).value]).None?))
  {
    if err || pos >= end then (Normal(None), pos, err)
    else if end > |src| then (Panic, pos, err)
    else
      var text := src[pos..end];
      match TakeFrom(text)
      case Panic => (Panic, pos, err)
      case Normal(None) => (Normal(Some(Err(Invalid(pos)))), pos, true)
      case Normal(Some((tok, len))) =>
        assert text[..len] == src[pos..pos + len];
        (Normal(Some(Ok(tok))), pos + len, err)
  }

  /** Once `next` has yielded an error, every later call yields nothing. */
  lemma ErrorIsLast(src: seq<char>, end: nat, pos: nat, err: bool)
    requires var r := NextStep(src, end, pos, err); r.0.Normal? && r.0.value.Some? && r.0.value.value.Err?
    ensures var r := NextStep(src, end, pos, err); NextStep(src, end, r.1, r.2).0 == Normal(None)
  {
  }

  class TokenIter {
    const src: seq<char>
    const end: nat
    var pos: nat
    var err: bool

    /** `TokenIter::new`: the cursor at 0, no error. */
    constructor New(src: seq<char>, end: nat)
      ensures this.src == src && this.end == end && pos == 0 && !err
    {
      this.src := src;
      this.end := end;
      pos := 0;
      err := false;
    }

    /** `TokenIter::from`: an iterator over the whole text. */
    constructor From(value: seq<char>)
      ensures src == value && end == |value| && pos == 0 && !err
    {
      src := value;
      end := |value|;
      pos := 0;
      err := false;
    }

    /** `next`: nothing once an error was yielded or the text is used up;
        otherwise the token at the cursor, moving the cursor past it, or an
        error at the cursor, switching the iterator off. */
    method Next() returns (r: Outcome<Option<Result<Token, TokenErr>>>)
      modifies this
      ensures (r, pos, err) == NextStep(src, end, old(pos), old(err))
    {
      if err || pos >= end {
        return Normal(None);
      }
      if end > |src| {
        return Panic;
      }
      var taken := TakeFrom(src[pos..end]);
      match taken
      case Panic =>
        r := Panic;
      case Normal(None) =>
        err := true;
        r := Normal(Some(Err(Invalid(pos))));
      case Normal(Some((tok, len))) =>
        pos := pos + len;
        r := Normal(Some(Ok(tok)));
    }
  }

  // ---------------------------------------------------------------------------
  // Draining the iterator
  // ---------------------------------------------------------------------------

  /** Everything the iterator yields from a state until `next` returns None,
      or Panic if a call panics. */
  function Run(src: seq<char>, end: nat, pos: nat, err: bool): Outcome<seq<Result<Token, TokenErr>>>
    decreases if err then 0 else 1, if pos <= end then end - pos else 0
  {
    var step := NextStep(src, end, pos, err);
    match step.0
    case Panic => Panic
    case Normal(None) => Normal([])
    case Normal(Some(item)) =>
      match Run(src, end, step.1, step.2)
      case Panic => Panic
      case Normal(items) => Normal([item] + items)
  }

  /** No error but the last. */
  predicate ErrorLast(items: seq<Result<Token, TokenErr>>)
  {
    forall i :: 0 <= i < |items| && items[i].Err? ==> i == |items| - 1
  }

  lemma ErrorLastCons(item: Result<Token, TokenErr>, rest: seq<Result<Token, TokenErr>>)
    requires item.Ok? && ErrorLast(rest)
    ensures ErrorLast([item] + rest)
  {
    var items := [item] + rest;
    forall i | 0 <= i < |items| && items[i].Err? ensures i == |items| - 1 {
      assert i != 0 && items[i] == rest[i - 1];
    }
  }

  /** The iterator yields at most one error, and nothing after it. */
  lemma {:induction false} RunErrorLast(src: seq<char>, end: nat, pos: nat, err: bool)
    ensures Run(src, end, pos, err).Normal? ==> ErrorLast(Run(src, end, pos, err).value)
    decreases if err then 0 else 1, if pos <= end then end - pos else 0
  {
    var step := NextStep(src, end, pos, err);
    if step.0.Normal? && step.0.value.Some? {
      var item := step.0.value.value;
      var next := Run(src, end, step.1, step.2);
      RunErrorLast(src, end, step.1, step.2);
      if item.Err? {
        ErrorIsLast(src, end, pos, err);
        assert next == Normal([]);
        assert [item] + [] == [item];
      } else if next.Normal? {
        ErrorLastCons(item, next.value);
      }
    }
  }

  /** `collect::<Result<Vec<Token>, TokenErr>>`: the tokens, or the first error. */
  function Collect(items: seq<Result<Token, TokenErr>>): (r: Result<seq<Token>, TokenErr>)
    ensures r.Ok? ==> |r.value| == |items| && forall i :: 0 <= i < |items| ==> items[i] == Ok(r.value[i])
    ensures r.Err? ==> exists i :: 0 <= i < |items| && items[i] == Err(r.error) && forall j :: 0 <= j < i ==> items[j].Ok?
  {
    if items == [] then Ok([])
    else
      match items[0]
      case Err(e) => Err(e)
      case Ok(t) =>
        match Collect(items[1..])
        case Err(e) =>
          var i :| 0 <= i < |items[1..]| && items[1..][i] == Err(e) && forall j :: 0 <= j < i ==> items[1..][j].Ok?;
          assert items[i + 1] == Err(e);
          Err(e)
        case Ok(ts) => Ok([t] + ts)
  }

  function Oks(ts: seq<Token>): (items: seq<Result<Token, TokenErr>>)
    ensures |items| == |ts| && forall i :: 0 <= i < |ts| ==> items[i] == Ok(ts[i])
  {
    seq(|ts|, i requires 0 <= i < |ts| => Ok(ts[i]))
  }

  /** Collecting after tokens already gathered keeps them in front. */
  lemma {:induction false} CollectAfter(acc: seq<Token>, items: seq<Result<Token, TokenErr>>)
    ensures Collect(Oks(acc) + items) == match Collect(items)
                                          case Err(e) => Err(e)
                                          case Ok(ts) => Ok(acc + ts)
  {
    var all := Oks(acc) + items;
    if acc == [] {
      assert all == items;
      match Collect(items)
      case Err(e) =>
      case Ok(ts) =>
        assert acc + ts == ts;
    } else {
      var tail := Oks(acc[1..]) + items;
      assert all[0] == Ok(acc[0]);
      assert all[1..] == tail;
      CollectAfter(acc[1..], items);
      match Collect(items)
      case Err(e) =>
        assert Collect(tail) == Err(e);
      case Ok(ts) =>
        assert Collect(tail) == Ok(acc[1..] + ts);
        ConsAppend(acc, ts);
    }
  }

  lemma ConsAppend(acc: seq<Token>, ts: seq<Token>)
    requires acc != []
    ensures acc + ts == [acc[0]] + (acc[1..] + ts)
  {
  }

  /** What the iterator yields from a state, after tokens already gathered. */
  function After(acc: seq<Token>, o: Outcome<seq<Result<Token, TokenErr>>>): Outcome<seq<Result<Token, TokenErr>>>
  {
    match o
    case Panic => Panic
    case Normal(items) => Normal(Oks(acc) + items)
  }

  /** A token yielded from a state moves it from the rest to the tokens gathered. */
  lemma AfterToken(src: seq<char>, end: nat, pos: nat, err: bool, acc: seq<Token>, tok: Token)
    requires NextStep(src, end, pos, err).0 == Normal(Some(Ok(tok)))
    ensures var step := NextStep(src, end, pos, err);
      After(acc, Run(src, end, pos, err)) == After(acc + [tok], Run(src, end, step.1, step.2))
  {
    var step := NextStep(src, end, pos, err);
    match Run(src, end, step.1, step.2)
    case Panic =>
    case Normal(rest) =>
      assert Run(src, end, pos, err) == Normal([Ok(tok)] + rest);
      OksSnoc(acc, tok, rest);
  }

  lemma OksSnoc(acc: seq<Token>, tok: Token, rest: seq<Result<Token, TokenErr>>)
    ensures Oks(acc) + ([Ok(tok)] + rest) == Oks(acc + [tok]) + rest
  {
    assert Oks(acc + [tok]) == Oks(acc) + [Ok(tok)];
  }

  /** Once `next` returns None, the tokens gathered are all there is. */
  lemma AfterNone(src: seq<char>, end: nat, pos: nat, err: bool, acc: seq<Token>)
    requires NextStep(src, end, pos, err).0 == Normal(None)
    ensures After(acc, Run(src, end, pos, err)) == Normal(Oks(acc))
    ensures Collect(Oks(acc)) == Ok(acc)
  {
    assert Oks(acc) + [] == Oks(acc);
    CollectAfter(acc, []);
    assert acc + [] == acc;
  }

  /** When `next` yields an error, collecting stops with it. */
  lemma AfterError(src: seq<char>, end: nat, pos: nat, err: bool, acc: seq<Token>, e: TokenErr)
    requires NextStep(src, end, pos, err).0 == Normal(Some(Err(e)))
    ensures After(acc, Run(src, end, pos, err)).Normal?
    ensures Collect(After(acc, Run(src, end, pos, err)).value) == Err(e)
  {
    var step := NextStep(src, end, pos, err);
    ErrorIsLast(src, end, pos, err);
    assert Run(src, end, step.1, step.2) == Normal([]);
    assert Run(src, end, pos, err) == Normal([Err(e)] + []);
    CollectAfter(acc, [Err(e)] + []);
  }

  /** `tokenize(text).collect::<Result<Vec<Token>, TokenErr>>()`: drain the
      iterator until it returns None, stopping at the first error. */
  method CollectTokens(text: seq<char>) returns (r: Outcome<Result<seq<Token>, TokenErr>>)
    ensures r == match Run(text, |text|, 0, false)
                 case Panic => Panic
                 case Normal(items) => Normal(Collect(items))
  {
    var it := new TokenIter.From(text);
    var acc: seq<Token> := [];
    assert Oks(acc) == [];
    match Run(text, |text|, 0, false) {
      case Panic =>
      case Normal(items) =>
        assert Oks(acc) + items == items;
    }
    ghost var pos: nat, err: bool := it.pos, it.err;
    var next := it.Next();
    while next.Normal? && next.value.Some? && next.value.value.Ok?
      invariant it.src == text && it.end == |text|
      invariant (next, it.pos, it.err) == NextStep(text, |text|, pos, err)
      invariant Run(text, |text|, 0, false) == After(acc, Run(text, |text|, pos, err))
      decreases if err then 0 else 1, if pos <= |text| then |text| - pos else 0
    {
      var tok := next.value.value.value;
      AfterToken(text, |text|, pos, err, acc, tok);
      acc := acc + [tok];
      pos, err := it.pos, it.err;
      next := it.Next();
    }
    if next.Panic? {
      r := Panic;
    } else if next.value.None? {
      AfterNone(text, |text|, pos, err, acc);
      r := Normal(Ok(acc));
    } else {
      AfterError(text, |text|, pos, err, acc, next.value.value.error);
      r := Normal(Err(next.value.value.error));
    }
  }

  /** `tokenize("1")` yields exactly the token `Int(1)`. */
  lemma TokenizeOne()
    ensures Run("1", 1, 0, false) == Normal([Ok(Int(1))])
  {
    TakeShown(1, []);
    assert Show(1) == "1";
    assert "1"[0..1] == Show(1) + [];
    assert NextStep("1", 1, 0, false) == (Normal(Some(Ok(Int(1)))), 1, false);
    assert Run("1", 1, 1, false) == Normal([]);
    var none: seq<Result<Token, TokenErr>> := [];
    assert [Ok(Int(1))] + none == [Ok(Int(1))];
  }
}
