/** The example request/response service: the request's whitespace
    separated tokens that are all decimal digits are read as integers,
    sorted ascending and written back, each followed by one space, then a
    line break and their sum in 32-bit unsigned arithmetic. A request
    without numeric tokens is echoed unchanged. Whitespace and digits are
    those of the "C" locale. */
module Service {
  import opened Wrappers

  /** `unsigned` arithmetic wraps modulo 2^32. */
  const UNSIGNED_MODULUS: nat := 0x1_0000_0000
  /** The largest value `std::stoi` returns without throwing. */
  const INT_MAX: nat := 0x7fff_ffff

  predicate IsDigit(c: char) { '0' <= c <= '9' }

  /** `std::isspace` in the "C" locale: no digit is whitespace, so a
      run of digits is never split into two tokens. */
  predicate IsSpace(c: char)
    ensures IsSpace(c) ==> !IsDigit(c)
    ensures c == ' ' || c == '\t' || c == '\n' || c == '\U{000B}' || c == '\U{000C}' || c == '\r' ==> IsSpace(c)
  {
    c == ' ' || c == '\t' || c == '\n' || c == '\U{000B}' || c == '\U{000C}' || c == '\r'
  }

  // ------------------------------------------------------------ is_number

  /** `std::find_if(s, !isdigit)`: the index of the first non-digit, or
      |s| when there is none. */
  function FindNonDigit(s: string): (k: nat)
    ensures k <= |s|
    ensures forall i :: 0 <= i < k ==> IsDigit(s[i])
    ensures k < |s| ==> !IsDigit(s[k])
  {
    if |s| == 0 || !IsDigit(s[0]) then 0 else 1 + FindNonDigit(s[1..])
  }

  /** `is_number`: non-empty and no character fails `isdigit`; that is,
      the token is non-empty and all digits. */
  predicate IsNumber(s: string)
    ensures IsNumber(s) <==> |s| > 0 && forall i :: 0 <= i < |s| ==> IsDigit(s[i])
  {
    |s| > 0 && FindNonDigit(s) == |s|
  }

  // --------------------------------------------------------- tokenising

  /** The length of the word at the start of `s`: the characters before
      the first whitespace. */
  function WordLength(s: string): (n: nat)
    ensures n <= |s|
    ensures forall i :: 0 <= i < n ==> !IsSpace(s[i])
    ensures n < |s| ==> IsSpace(s[n])
  {
    if |s| == 0 || IsSpace(s[0]) then 0 else 1 + WordLength(s[1..])
  }

  /** The words `std::istream_iterator<std::string>` reads from `s`:
      maximal runs of non-whitespace, in order. */
  function Tokens(s: string): (ts: seq<string>)
    ensures forall k :: 0 <= k < |ts| ==> Word(ts[k])
    decreases |s|
  {
    if |s| == 0 then []
    else if IsSpace(s[0]) then Tokens(s[1..])
    else [s[..WordLength(s)]] + Tokens(s[WordLength(s)..])
  }

  /** A token: non-empty, no whitespace. */
  predicate Word(w: string)
  {
    |w| > 0 && forall i :: 0 <= i < |w| ==> !IsSpace(w[i])
  }

  /** A word followed by whitespace is read as that word, then the rest. */
  lemma {:induction false} TokensOfWordThenSpace(w: string, c: char, rest: string)
    requires Word(w) && IsSpace(c)
    ensures Tokens(w + [c] + rest) == [w] + Tokens(rest)
  {
    var s := w + [c] + rest;
    WordLengthOfWordThenSpace(w, c, rest);
    assert s[..|w|] == w;
    assert s[|w|..] == [c] + rest;
    assert ([c] + rest)[1..] == rest;
  }

  lemma {:induction false} WordLengthOfWordThenSpace(w: string, c: char, rest: string)
    requires Word(w) && IsSpace(c)
    ensures WordLength(w + [c] + rest) == |w|
    decreases |w|
  {
    var s := w + [c] + rest;
    if |w| > 1 {
      assert s[1..] == w[1..] + [c] + rest;
      WordLengthOfWordThenSpace(w[1..], c, rest);
    } else {
      assert s[1..] == [c] + rest;
    }
  }

  /** A lone word is read as itself. */
  lemma {:induction false} TokensOfWord(w: string)
    requires Word(w)
    ensures Tokens(w) == [w]
  {
    WordLengthOfWord(w);
    assert w[..|w|] == w;
  }

  lemma {:induction false} WordLengthOfWord(w: string)
    requires Word(w)
    ensures WordLength(w) == |w|
    decreases |w|
  {
    if |w| > 1 {
      WordLengthOfWord(w[1..]);
    }
  }

  // ------------------------------------------------- decimal conversions

  function DigitValue(c: char): nat
    requires IsDigit(c)
  {
    (c as int) - ('0' as int)
  }

  /** The value of a string of decimal digits. */
  function DecimalValue(s: string): nat
    requires forall i :: 0 <= i < |s| ==> IsDigit(s[i])
  {
    if |s| == 0 then 0 else 10 * DecimalValue(s[..|s| - 1]) + DigitValue(s[|s| - 1])
  }

  /** `std::stoi` thrown `std::out_of_range`. */
  datatype OutOfRange = OutOfRange

  /** `std::stoi` applied to a numeric token: its value, or out_of_range
      when it does not fit in `int`. */
  function Stoi(s: string): (r: Result<nat, OutOfRange>)
    requires IsNumber(s)
    ensures r.Success? <==> DecimalValue(s) <= INT_MAX
    ensures r.Success? ==> r.value == DecimalValue(s) && r.value <= INT_MAX
  {
    var v := DecimalValue(s);
    if v <= INT_MAX then Success(v) else Failure(OutOfRange)
  }

  function DigitChar(d: nat): (c: char)
    requires d < 10
    ensures IsDigit(c) && DigitValue(c) == d
  {
    (('0' as int) + d) as char
  }

  /** `std::to_string(unsigned)`: decimal, no sign, no leading zeros. */
  function NatToString(n: nat): (s: string)
    ensures |s| > 0 && forall i :: 0 <= i < |s| ==> IsDigit(s[i])
    ensures n > 0 ==> s[0] != '0'
  {
    if n < 10 then [DigitChar(n)] else NatToString(n / 10) + [DigitChar(n % 10)]
  }

  /** Reading back what `to_string` writes gives the number again. */
  lemma {:induction false} NatToStringRoundTrip(n: nat)
    ensures IsNumber(NatToString(n))
    ensures DecimalValue(NatToString(n)) == n
    decreases n
  {
    var s := NatToString(n);
    if n >= 10 {
      NatToStringRoundTrip(n / 10);
      assert s[..|s| - 1] == NatToString(n / 10);
    }
  }

  // ----------------------------------------------------------- parse_ints

  /** The tokens `copy_if(..., is_number)` keeps, in input order. */
  function NumericTokens(ts: seq<string>): (r: seq<string>)
    ensures forall k :: 0 <= k < |r| ==> IsNumber(r[k]) && r[k] in ts
    ensures |r| <= |ts|
  {
    if |ts| == 0 then []
    else NumericTokens(ts[..|ts| - 1]) + (if IsNumber(ts[|ts| - 1]) then [ts[|ts| - 1]] else [])
  }

  /** `transform(..., stoi)`: the values in order, or the out_of_range of
      the first token that does not fit in `int`. */
  function ToInts(strs: seq<string>): (r: Result<seq<nat>, OutOfRange>)
    requires forall k :: 0 <= k < |strs| ==> IsNumber(strs[k])
    ensures r.Success? ==> |r.value| == |strs|
    ensures r.Success? ==> forall k :: 0 <= k < |r.value| ==> r.value[k] <= INT_MAX
    ensures r.Failure? ==> exists k :: 0 <= k < |strs| && IsNumber(strs[k]) && DecimalValue(strs[k]) > INT_MAX
  {
    if |strs| == 0 then Success([])
    else
      var prefix := ToInts(strs[..|strs| - 1]);
      if prefix.Failure? then prefix
      else
        var last := Stoi(strs[|strs| - 1]);
        if last.Failure? then Failure(last.error) else Success(prefix.value + [last.value])
  }

  /** The numbers a request holds: the numeric tokens' values. */
  function ParsedInts(request: string): Result<seq<nat>, OutOfRange>
  {
    ToInts(NumericTokens(Tokens(request)))
  }

  /** `parse_ints`: collects the numeric tokens, then converts each one. */
  method ParseInts(request: string) returns (r: Result<seq<nat>, OutOfRange>)
    ensures r == ParsedInts(request)
  {
    var intStrs := CopyNumeric(Tokens(request));
    r := ConvertAll(intStrs);
  }

  /** The `copy_if(..., is_number)` step of `parse_ints`. */
  method CopyNumeric(tokens: seq<string>) returns (intStrs: seq<string>)
    ensures intStrs == NumericTokens(tokens)
  {
    intStrs := [];
    for i := 0 to |tokens|
      invariant intStrs == NumericTokens(tokens[..i])
    {
      assert tokens[..i + 1][..i] == tokens[..i];
      if IsNumber(tokens[i]) {
        intStrs := intStrs + [tokens[i]];
      }
    }
    assert tokens[..|tokens|] == tokens;
  }

  /** The `transform(..., stoi)` step of `parse_ints`: stops at the first
      token that throws. */
  method ConvertAll(intStrs: seq<string>) returns (r: Result<seq<nat>, OutOfRange>)
    requires forall k :: 0 <= k < |intStrs| ==> IsNumber(intStrs[k])
    ensures r == ToInts(intStrs)
  {
    var ints: seq<nat> := [];
    for i := 0 to |intStrs|
      invariant ToInts(intStrs[..i]) == Success(ints)
    {
      assert intStrs[..i + 1][..i] == intStrs[..i];
      var v := Stoi(intStrs[i]);
      if v.Failure? {
        assert ToInts(intStrs[..i + 1]) == Failure(v.error);
        ToIntsFailureSticks(intStrs, i + 1);
        return Failure(v.error);
      }
      ints := ints + [v.value];
    }
    assert intStrs[..|intStrs|] == intStrs;
    r := Success(ints);
  }

  /** Once a prefix fails to convert, so does the whole sequence. */
  lemma {:induction false} ToIntsFailureSticks(strs: seq<string>, n: nat)
    requires forall k :: 0 <= k < |strs| ==> IsNumber(strs[k])
    requires n <= |strs| && ToInts(strs[..n]).Failure?
    ensures ToInts(strs) == ToInts(strs[..n])
    decreases |strs| - n
  {
    if n < |strs| {
      assert strs[..n + 1][..n] == strs[..n];
      ToIntsFailureSticks(strs, n + 1);
    } else {
      assert strs[..n] == strs;
    }
  }

  /** Conversion succeeds exactly when every numeric token fits in `int`,
      and then yields one value per token, in order. */
  lemma {:induction false} ToIntsValues(strs: seq<string>)
    requires forall k :: 0 <= k < |strs| ==> IsNumber(strs[k])
    ensures ToInts(strs).Success? <==> forall k :: 0 <= k < |strs| ==> DecimalValue(strs[k]) <= INT_MAX
    ensures ToInts(strs).Success? ==>
              |ToInts(strs).value| == |strs|
              && forall k :: 0 <= k < |strs| ==> ToInts(strs).value[k] == DecimalValue(strs[k])
  {
    if |strs| > 0 {
      var init := strs[..|strs| - 1];
      ToIntsValues(init);
      assert forall k :: 0 <= k < |init| ==> init[k] == strs[k];
    }
  }

  /** The numeric tokens are exactly the tokens that satisfy `is_number`:
      each kept token is one of the input's, the input's numeric tokens
      are all kept, and each numeric token is kept as many times as it
      occurs while every other token is dropped. */
  lemma {:induction false} NumericTokensFilter(ts: seq<string>)
    ensures forall k :: 0 <= k < |NumericTokens(ts)| ==> NumericTokens(ts)[k] in ts
    ensures forall k :: 0 <= k < |ts| && IsNumber(ts[k]) ==> ts[k] in NumericTokens(ts)
    ensures forall t :: multiset(NumericTokens(ts))[t] == if IsNumber(t) then multiset(ts)[t] else 0
    ensures (forall k :: 0 <= k < |ts| ==> !IsNumber(ts[k])) ==> NumericTokens(ts) == []
  {
    NumericTokensCount(ts);
    forall k | 0 <= k < |ts| && IsNumber(ts[k]) ensures ts[k] in NumericTokens(ts) {
      assert multiset(ts)[ts[k]] > 0;
    }
  }

  lemma {:induction false} NumericTokensCount(ts: seq<string>)
    ensures forall t :: multiset(NumericTokens(ts))[t] == if IsNumber(t) then multiset(ts)[t] else 0
  {
    if |ts| > 0 {
      var init, last := ts[..|ts| - 1], ts[|ts| - 1];
      NumericTokensCount(init);
      assert ts == init + [last];
      assert multiset(ts) == multiset(init) + multiset{last};
      var keep := if IsNumber(last) then [last] else [];
      assert multiset(NumericTokens(ts)) == multiset(NumericTokens(init)) + multiset(keep);
    }
  }

  /** `copy_if` keeps the input order: filtering a concatenation filters
      each part and concatenates the results, and a single token is kept
      exactly when it is numeric. */
  lemma {:induction false} NumericTokensAppend(a: seq<string>, b: seq<string>)
    ensures NumericTokens(a + b) == NumericTokens(a) + NumericTokens(b)
    ensures NumericTokens([]) == []
    decreases |b|
  {
    if |b| == 0 {
      assert a + b == a;
    } else {
      var init := b[..|b| - 1];
      assert (a + b)[..|a + b| - 1] == a + init;
      assert (a + b)[|a + b| - 1] == b[|b| - 1];
      NumericTokensAppend(a, init);
    }
  }

  /** One token is kept exactly when it is numeric. */
  lemma NumericTokensSingle(t: string)
    ensures NumericTokens([t]) == if IsNumber(t) then [t] else []
  {
    assert [t][..0] == [];
  }

  // --------------------------------------------------------------- sorting

  predicate Sorted(s: seq<nat>)
  {
    forall i, j :: 0 <= i < j < |s| ==> s[i] <= s[j]
  }

  /** Inserts `x` into a sorted sequence. */
  function Insert(x: nat, s: seq<nat>): (r: seq<nat>)
    ensures |r| == |s| + 1
  {
    if |s| == 0 || x <= s[0] then [x] + s else [s[0]] + Insert(x, s[1..])
  }

  /** The ascending order of `s`, duplicates kept: the reference for what
      `std::sort` leaves in the vector. */
  function SortSeq(s: seq<nat>): (r: seq<nat>)
    ensures |r| == |s|
  {
    if |s| == 0 then [] else Insert(s[0], SortSeq(s[1..]))
  }

  lemma {:induction false} InsertPermutation(x: nat, s: seq<nat>)
    ensures multiset(Insert(x, s)) == multiset(s) + multiset{x}
  {
    if |s| > 0 && x > s[0] {
      InsertPermutation(x, s[1..]);
      assert s == [s[0]] + s[1..];
    }
  }

  lemma {:induction false} InsertSorted(x: nat, s: seq<nat>)
    requires Sorted(s)
    ensures Sorted(Insert(x, s))
  {
    if |s| == 0 || x <= s[0] {
      ConsSorted(x, s);
    } else {
      var t := Insert(x, s[1..]);
      SortedTail(s);
      InsertSorted(x, s[1..]);
      InsertPermutation(x, s[1..]);
      forall k | 0 <= k < |t|
        ensures s[0] <= t[k]
      {
        assert t[k] in multiset(s[1..]) + multiset{x};
        if t[k] != x {
          var m :| 0 <= m < |s[1..]| && s[1..][m] == t[k];
          assert s[1..][m] == s[m + 1];
        }
      }
      ConsSorted(s[0], t);
    }
  }

  /** A sorted sequence stays sorted behind a head no larger than its elements. */
  lemma ConsSorted(h: nat, t: seq<nat>)
    requires Sorted(t) && forall k :: 0 <= k < |t| ==> h <= t[k]
    ensures Sorted([h] + t)
  {
    var r := [h] + t;
    forall i, j | 0 <= i < j < |r| ensures r[i] <= r[j] {
      assert r[j] == t[j - 1];
      if i > 0 { assert r[i] == t[i - 1]; }
    }
  }

  /** SortSeq is an ascending permutation of its input. */
  lemma {:induction false} SortSeqSortedPermutation(s: seq<nat>)
    ensures Sorted(SortSeq(s))
    ensures multiset(SortSeq(s)) == multiset(s)
  {
    if |s| > 0 {
      SortSeqSortedPermutation(s[1..]);
      InsertSorted(s[0], SortSeq(s[1..]));
      InsertPermutation(s[0], SortSeq(s[1..]));
      assert s == [s[0]] + s[1..];
    }
  }

  /** There is only one ascending permutation of a multiset of numbers. */
  lemma {:induction false} SortedPermutationUnique(s: seq<nat>, t: seq<nat>)
    requires Sorted(s) && Sorted(t) && multiset(s) == multiset(t)
    ensures s == t
    decreases |s|
  {
    assert |s| == |multiset(s)| == |multiset(t)| == |t|;
    if |s| > 0 {
      HeadIsLeast(s, t[0]);
      HeadIsLeast(t, s[0]);
      var rs, rt := s[1..], t[1..];
      assert s[0] == t[0];
      assert s == [s[0]] + rs && t == [t[0]] + rt;
      assert multiset(s) == multiset{s[0]} + multiset(rs);
      assert multiset(t) == multiset{s[0]} + multiset(rt);
      assert multiset(rs) == multiset(s) - multiset{s[0]};
      assert multiset(rt) == multiset(t) - multiset{s[0]};
      SortedTail(s);
      SortedTail(t);
      SortedPermutationUnique(rs, rt);
    }
  }

  lemma HeadIsLeast(s: seq<nat>, x: nat)
    requires Sorted(s) && x in multiset(s)
    ensures s[0] <= x
  {
    var i :| 0 <= i < |s| && s[i] == x;
  }

  lemma SortedTail(s: seq<nat>)
    requires Sorted(s) && |s| > 0
    ensures Sorted(s[1..])
  {
    forall i, j | 0 <= i < j < |s| - 1 ensures s[1..][i] <= s[1..][j] {
      assert s[1..][i] == s[i + 1] && s[1..][j] == s[j + 1];
    }
  }

  /** `std::sort(ints.begin(), ints.end())`: insertion by adjacent swaps. */
  method SortInPlace(a: array<nat>)
    modifies a
    ensures Sorted(a[..])
    ensures multiset(a[..]) == multiset(old(a[..]))
  {
    var i := 0;
    while i < a.Length
      invariant 0 <= i <= a.Length
      invariant Sorted(a[..i])
      invariant multiset(a[..]) == multiset(old(a[..]))
    {
      SinkInto(a, i);
      i := i + 1;
    }
    assert a[..a.Length] == a[..];
  }

  /** Moves `a[i]` down into the sorted prefix `a[..i]`. */
  method SinkInto(a: array<nat>, i: nat)
    requires i < a.Length && Sorted(a[..i])
    modifies a
    ensures Sorted(a[..i + 1])
    ensures multiset(a[..]) == multiset(old(a[..]))
  {
    var j := i;
    while j > 0 && a[j - 1] > a[j]
      invariant 0 <= j <= i
      invariant forall k, l :: 0 <= k < l <= i && k != j && l != j ==> a[k] <= a[l]
      invariant forall l :: j < l <= i ==> a[j] <= a[l]
      invariant forall k, l :: 0 <= k < j < l <= i ==> a[k] <= a[l]
      invariant multiset(a[..]) == multiset(old(a[..]))
    {
      a[j - 1], a[j] := a[j], a[j - 1];
      j := j - 1;
    }
  }

  // ------------------------------------------------------- create_response

  /** What `std::ostream_iterator<unsigned>(ss, " ")` writes for `s`:
      each number in decimal followed by one space. */
  function Render(s: seq<nat>): (r: string)
    ensures forall i :: 0 <= i < |r| ==> IsDigit(r[i]) || r[i] == ' '
    ensures |s| == 0 <==> r == ""
    ensures |s| > 0 ==> r[|r| - 1] == ' '
  {
    if |s| == 0 then "" else NatToString(s[0]) + " " + Render(s[1..])
  }

  lemma {:induction false} RenderAppend(s: seq<nat>, x: nat)
    ensures Render(s + [x]) == Render(s) + NatToString(x) + " "
  {
    if |s| > 0 {
      assert (s + [x])[1..] == s[1..] + [x];
      RenderAppend(s[1..], x);
    } else {
      assert [x][1..] == [];
    }
  }

  /** The mathematical sum of `s`. */
  function TotalSum(s: seq<nat>): nat
  {
    if |s| == 0 then 0 else s[0] + TotalSum(s[1..])
  }

  lemma {:induction false} TotalSumAppend(s: seq<nat>, x: nat)
    ensures TotalSum(s + [x]) == TotalSum(s) + x
  {
    if |s| > 0 {
      assert (s + [x])[1..] == s[1..] + [x];
      TotalSumAppend(s[1..], x);
    } else {
      assert [x][1..] == [];
    }
  }

  lemma {:induction false} TotalSumInsert(x: nat, s: seq<nat>)
    ensures TotalSum(Insert(x, s)) == x + TotalSum(s)
  {
    if |s| > 0 && x > s[0] {
      TotalSumInsert(x, s[1..]);
    }
  }

  /** Sorting does not change the sum. */
  lemma {:induction false} TotalSumSortSeq(s: seq<nat>)
    ensures TotalSum(SortSeq(s)) == TotalSum(s)
  {
    if |s| > 0 {
      TotalSumSortSeq(s[1..]);
      TotalSumInsert(s[0], SortSeq(s[1..]));
    }
  }

  /** The reply to `req`: the request itself when it holds no numbers;
      otherwise the numbers ascending, each followed by a space, a line
      break, and their sum modulo 2^32. A token too large for `int`
      makes the reply fail with out_of_range. */
  function Response(req: string): (r: Result<string, OutOfRange>)
    ensures r.Failure? <==> ParsedInts(req).Failure?
    ensures r.Failure? ==> exists t :: t in Tokens(req) && IsNumber(t) && DecimalValue(t) > INT_MAX
    ensures r.Success? && r.value != req ==> |ParsedInts(req).value| > 0
  {
    match ParsedInts(req)
    case Failure(e) => Failure(e)
    case Success(ints) =>
      if |ints| == 0 then Success(req)
      else Success(Render(SortSeq(ints)) + "\n" + NatToString(TotalSum(ints) % UNSIGNED_MODULUS))
  }

  /** `modular addition`: reducing the running sum at every step gives
      the reduced total. */
  lemma AddMod(a: nat, b: nat)
    ensures (a % UNSIGNED_MODULUS + b) % UNSIGNED_MODULUS == (a + b) % UNSIGNED_MODULUS
  {
  }

  /** `create_response`: parses, sorts the vector in place, then writes
      each number and accumulates the `unsigned` sum in one pass. */
  method CreateResponse(req: string) returns (r: Result<string, OutOfRange>)
    ensures r == Response(req)
  {
    var parsed := ParseInts(req);
    if parsed.Failure? {
      return Failure(parsed.error);
    }
    var ints := parsed.value;
    if |ints| == 0 {
      return Success(req);
    }
    var a := new nat[|ints|](i requires 0 <= i < |ints| => ints[i]);
    assert a[..] == ints;
    SortInPlace(a);
    SortSeqSortedPermutation(ints);
    SortedPermutationUnique(a[..], SortSeq(ints));
    var out, sum := WriteAndSum(a);
    TotalSumSortSeq(ints);
    r := Success(out + "\n" + NatToString(sum));
  }

  /** The `copy_if` pass of `create_response`: writes each number followed
      by a space and adds it to the `unsigned` sum. */
  method WriteAndSum(a: array<nat>) returns (out: string, sum: nat)
    ensures out == Render(a[..])
    ensures sum == TotalSum(a[..]) % UNSIGNED_MODULUS
  {
    out, sum := "", 0;
    for i := 0 to a.Length
      invariant out == Render(a[..i])
      invariant sum == TotalSum(a[..i]) % UNSIGNED_MODULUS
    {
      assert a[..i + 1] == a[..i] + [a[i]];
      RenderAppend(a[..i], a[i]);
      TotalSumAppend(a[..i], a[i]);
      AddMod(TotalSum(a[..i]), a[i]);
      sum := (sum + a[i]) % UNSIGNED_MODULUS;
      out := out + NatToString(a[i]) + " ";
    }
    assert a[..a.Length] == a[..];
  }

  /** Each element's decimal text, in order. */
  function Decimals(s: seq<nat>): (r: seq<string>)
    ensures |r| == |s| && forall k :: 0 <= k < |s| ==> r[k] == NatToString(s[k])
  {
    if |s| == 0 then [] else [NatToString(s[0])] + Decimals(s[1..])
  }

  /** Read back as words, the rendered numbers followed by the sum are the
      numbers' decimal texts and then the sum's. */
  lemma {:induction false} TokensOfRendered(s: seq<nat>, total: nat)
    ensures Tokens(Render(s) + "\n" + NatToString(total)) == Decimals(s) + [NatToString(total)]
  {
    if |s| == 0 {
      var t := NatToString(total);
      assert "" + "\n" + t == "\n" + t;
      assert ("\n" + t)[1..] == t;
      TokensOfWord(t);
    } else {
      var w := NatToString(s[0]);
      var rest := Render(s[1..]) + "\n" + NatToString(total);
      assert Render(s) + "\n" + NatToString(total) == w + [' '] + rest;
      TokensOfWordThenSpace(w, ' ', rest);
      TokensOfRendered(s[1..], total);
    }
  }

  /** A request without numeric tokens is echoed back unchanged. */
  lemma EchoWhenNoNumbers(req: string)
    requires forall k :: 0 <= k < |Tokens(req)| ==> !IsNumber(Tokens(req)[k])
    ensures Response(req) == Success(req)
  {
    NumericTokensFilter(Tokens(req));
  }

  /** A reply with numbers holds, as words, every numeric token's value in
      ascending order and then their wrapped sum; the numbers are as many
      as the request's numeric tokens, and each reads back as its value. */
  lemma ResponseContents(req: string)
    requires ParsedInts(req).Success? && |ParsedInts(req).value| > 0
    ensures var ints := ParsedInts(req).value;
            var sorted := SortSeq(ints);
            && Response(req).Success?
            && Tokens(Response(req).value)
               == Decimals(sorted) + [NatToString(TotalSum(ints) % UNSIGNED_MODULUS)]
            && Sorted(sorted) && multiset(sorted) == multiset(ints)
            && |sorted| == |NumericTokens(Tokens(req))|
            && forall k :: 0 <= k < |sorted| ==> DecimalValue(Decimals(sorted)[k]) == sorted[k]
  {
    var ints := ParsedInts(req).value;
    var sorted := SortSeq(ints);
    TokensOfRendered(sorted, TotalSum(ints) % UNSIGNED_MODULUS);
    SortSeqSortedPermutation(ints);
    ToIntsValues(NumericTokens(Tokens(req)));
    assert |sorted| == |multiset(sorted)| == |multiset(ints)| == |ints|;
    DecimalsRoundTrip(sorted);
  }

  lemma {:induction false} DecimalsRoundTrip(s: seq<nat>)
    ensures forall k :: 0 <= k < |s| ==> IsNumber(Decimals(s)[k]) && DecimalValue(Decimals(s)[k]) == s[k]
  {
    if |s| > 0 {
      NatToStringRoundTrip(s[0]);
      DecimalsRoundTrip(s[1..]);
    }
  }
}
