/** The formatter with its growing buffer (ext/uspi/lib/string.c). */
module Formatters {
  import opened Arithmetic
  import opened Digits

  const FORMAT_RESERVE := 64

  // `size_t` and `unsigned long` have 64 bits.
  const SIZE_LIMIT := 0x1_0000_0000_0000_0000
  const LONG := 0x1_0000_0000_0000_0000

  predicate NulFree(s: seq<char>) {
    forall i :: 0 <= i < |s| ==> s[i] != '\0'
  }

  // ----- What a format string means ------------------------------------------------------------------------

  datatype Arg = Char(c: char) | Number(n: int) | Text(s: seq<char>)

  /** A piece of a format string: a character of its own, or a conversion. A conversion with an unknown letter
      takes no argument and stands for a percent sign and that letter. */
  datatype Piece =
    | Plain(c: char)
    | Conversion(left: bool, zero: bool, width: nat, long: bool, kind: char)

  const KINDS: set<char> := {'c', 'd', 'o', 's', 'u', 'x', 'X'}

  predicate TakesArg(p: Piece) {
    p.Conversion? && p.kind in KINDS
  }

  predicate IsDigit(c: char) {
    '0' <= c <= '9'
  }

  function DigitValue(c: char): nat
    requires IsDigit(c)
  {
    c as int - 48
  }

  function SkipDigits(f: seq<char>, i: nat): (j: nat)
    requires i <= |f|
    ensures i <= j <= |f|
    decreases |f| - i
  {
    if i < |f| && IsDigit(f[i]) then SkipDigits(f, i + 1) else i
  }

  /** The width; it is computed in 64 bits. */
  function Width(f: seq<char>, i: nat, sofar: nat): nat
    requires i <= |f|
    decreases |f| - i
  {
    if i < |f| && IsDigit(f[i]) then Width(f, i + 1, (sofar * 10 + DigitValue(f[i])) % SIZE_LIMIT) else sofar
  }

  /** Where the parts of a conversion begin; `i` is behind the percent sign. */
  function AfterMinus(f: seq<char>, i: nat): nat { if i < |f| && f[i] == '-' then i + 1 else i }
  function AfterZero(f: seq<char>, i: nat): nat { if i < |f| && f[i] == '0' then i + 1 else i }
  function AfterLong(f: seq<char>, i: nat): nat { if i < |f| && f[i] == 'l' then i + 1 else i }

  function LetterAt(f: seq<char>, i: nat): (j: nat)
    requires i <= |f|
    ensures i <= j <= |f|
  {
    AfterLong(f, SkipDigits(f, AfterZero(f, AfterMinus(f, i))))
  }

  function ConversionAt(f: seq<char>, i: nat): Piece
    requires i <= |f| && LetterAt(f, i) < |f|
  {
    var m := AfterMinus(f, i);
    var z := AfterZero(f, m);
    var l := SkipDigits(f, z);
    Conversion(m > i, z > m, Width(f, z, 0), LetterAt(f, i) > l, f[LetterAt(f, i)])
  }

  /** The pieces of a format string from position `i` on. */
  datatype Parsed = Pieces(pieces: seq<Piece>) | Truncated

  function Parse(f: seq<char>, i: nat): Parsed
    requires i <= |f|
    decreases |f| - i
  {
    if i == |f| then Pieces([])
    else if f[i] != '%' then Cons(Plain(f[i]), Parse(f, i + 1))
    else if i + 1 < |f| && f[i+1] == '%' then Cons(Plain('%'), Parse(f, i + 2))
    else
      var j := LetterAt(f, i + 1);
      if j == |f| then Truncated else Cons(ConversionAt(f, i + 1), Parse(f, j + 1))
  }

  function Cons(p: Piece, rest: Parsed): Parsed {
    if rest.Truncated? then Truncated else Pieces([p] + rest.pieces)
  }

  function Repeat(c: char, n: nat): (s: seq<char>)
    ensures |s| == n && forall i :: 0 <= i < n ==> s[i] == c
  {
    seq(n, _ => c)
  }

  function Base(kind: char): nat {
    if kind == 'o' then 8 else if kind == 'x' || kind == 'X' then 16 else 10
  }

  /** Does the argument suit the conversion? Characters and strings are free of NUL. Numbers have 32 bits, or 64 bits
      after an `l`, and the number buffer has room for 11 digits. */
  predicate Suits(p: Piece, a: Arg)
    requires TakesArg(p)
  {
    match p.kind
    case 'c' => a.Char? && a.c != '\0'
    case 's' => a.Text? && NulFree(a.s)
    case 'd' => a.Number? && (if p.long then FitsBuffer(Magnitude(a.n), 10) else -0x8000_0000 <= a.n < 0x8000_0000)
    case _ => a.Number? && 0 <= a.n && if p.long then a.n < LONG && FitsBuffer(a.n, Base(p.kind)) else a.n < WORD
  }

  function Magnitude(n: int): nat { if n < 0 then -n else n }

  predicate FitsBuffer(n: nat, base: nat) {
    n < Pow(base, MAX_NUMBER_LEN)
  }

  /** `ntoa` stays within the number buffer exactly if the number has at most 11 digits: every 32 bit number does, but
      not every 64 bit one. */
  lemma NumBufExactly(n: nat, base: nat, upcase: bool)
    requires 2 <= base <= 36
    ensures |NumberText(n, base, upcase)| + 1 <= MAX_NUMBER_LEN + 1 <==> FitsBuffer(n, base)
    ensures base >= 8 && n < WORD ==> FitsBuffer(n, base)
  {
    LengthExactly(n, base, MAX_NUMBER_LEN);
    if base >= 8 && n < WORD {
      FitsNumBuf(n, base);
    }
  }

  /** The smallest number with which `%lu` writes past the number buffer. */
  lemma LongOverflows()
    ensures 100_000_000_000 < LONG && |NumberText(100_000_000_000, 10, false)| + 1 == MAX_NUMBER_LEN + 2
    ensures forall n: nat :: n < 100_000_000_000 ==> FitsBuffer(n, 10)
  {
    assert Pow(10, 4) == 10_000;
    assert Pow(10, 8) == 100_000_000;
    assert Pow(10, 11) == 100_000_000_000;
    assert Pow(10, 12) == 1_000_000_000_000;
    LengthExactly(100_000_000_000, 10, 11);
    LengthExactly(100_000_000_000, 10, 12);
  }

  /** The text of an argument, without padding. */
  function Body(p: Piece, a: Arg): seq<char>
    requires TakesArg(p) && Suits(p, a)
  {
    match p.kind
    case 'c' => Sign(false) + [a.c]
    case 's' => Sign(false) + a.s
    case 'd' => Sign(a.n < 0) + NumberText(Magnitude(a.n), 10, false)
    case _ => Sign(false) + NumberText(a.n, Base(p.kind), p.kind == 'X')
  }

  function Sign(minus: bool): seq<char> { if minus then ['-'] else [] }

  /** What a text of some length is missing up to the width. */
  function Padding(c: char, width: nat, len: nat): (s: seq<char>) {
    if width > len then Repeat(c, width - len) else []
  }

  /** A field: padding to the width goes to the right of a left-justified text, as spaces, and to the left of any
      other. */
  function Field(left: bool, pad: char, width: nat, text: seq<char>): (s: seq<char>)
    ensures |s| >= |text|
  {
    if left then text + Padding(' ', width, |text|) else Padding(pad, width, |text|) + text
  }

  /** Zeros pad only unsigned numbers. */
  function Padded(p: Piece, body: seq<char>): seq<char>
    requires p.Conversion?
  {
    Field(p.left, if p.zero && p.kind in {'o', 'u', 'x', 'X'} then '0' else ' ', p.width, body)
  }

  /** Are there suitable arguments for all conversions? */
  predicate Supplied(pieces: seq<Piece>, args: seq<Arg>)
    decreases |pieces|
  {
    pieces == [] ||
    if TakesArg(pieces[0]) then args != [] && Suits(pieces[0], args[0]) && Supplied(pieces[1..], args[1..])
    else Supplied(pieces[1..], args)
  }

  /** The formatted text: the concatenation of the formatted pieces. */
  function Formatted(pieces: seq<Piece>, args: seq<Arg>): seq<char>
    requires Supplied(pieces, args)
    decreases |pieces|
  {
    if pieces == [] then []
    else if TakesArg(pieces[0]) then Padded(pieces[0], Body(pieces[0], args[0])) + Formatted(pieces[1..], args[1..])
    else if pieces[0].Plain? then [pieces[0].c] + Formatted(pieces[1..], args)
    else ['%', pieces[0].kind] + Formatted(pieces[1..], args)
  }

  // ----- The string object -------------------------------------------------------------------------------------

  /** A string that is being formatted. The buffer is replaced by a larger one when it is full; `inPtr` is where
      the next character goes. */
  class TString {
    var buffer: array<char>
    var inPtr: nat

    ghost function Contents(): seq<char>
      requires inPtr <= buffer.Length
      reads this, buffer
    {
      buffer[..inPtr]
    }

    /** There is always room for the final NUL, and none in between. */
    ghost predicate Valid()
      reads this, buffer
    {
      inPtr < buffer.Length && NulFree(buffer[..inPtr])
    }

    constructor ()
      ensures Valid() && fresh(buffer) && Contents() == []
    {
      buffer := new char[FORMAT_RESERVE];
      inPtr := 0;
    }

    method ReserveSpace(space: nat)
      requires Valid() && inPtr + space + 1 + FORMAT_RESERVE < SIZE_LIMIT
      modifies this, buffer
      ensures Valid() && Contents() == old(Contents()) && inPtr == old(inPtr)
      ensures inPtr + space < buffer.Length && (fresh(buffer) || buffer == old(buffer))
    {
      if space == 0 {
        return;
      }
      var offset := inPtr;
      var newSize := (offset + space + 1) % SIZE_LIMIT;
      if buffer.Length >= newSize {
        return;
      }
      newSize := (newSize + FORMAT_RESERVE) % SIZE_LIMIT;
      var newBuffer := new char[newSize];
      buffer[inPtr] := '\0';
      // strcpy
      var i := 0;
      while buffer[i] != '\0'
        invariant i <= offset && inPtr == offset && buffer == old(buffer) && offset < buffer.Length && buffer[offset] == '\0'
        invariant buffer[..offset] == old(buffer[..inPtr]) && forall j :: 0 <= j < offset ==> buffer[j] != '\0'
        invariant newBuffer[..i] == buffer[..i]
        decreases offset - i
      {
        newBuffer[i] := buffer[i];
        i := i + 1;
      }
      newBuffer[i] := '\0';
      buffer := newBuffer;
      inPtr := offset;
    }

    method PutChar(c: char, count: nat)
      requires Valid() && c != '\0' && inPtr + count + 1 + FORMAT_RESERVE < SIZE_LIMIT
      modifies this, buffer
      ensures Valid() && Contents() == old(Contents()) + Repeat(c, count) && (fresh(buffer) || buffer == old(buffer))
    {
      ReserveSpace(count);
      ghost var start, before := inPtr, Contents();
      var n: nat := count;
      while n > 0
        invariant n <= count && inPtr == start + (count - n) && start + count < buffer.Length
        invariant fresh(buffer) || buffer == old(buffer)
        invariant buffer[..inPtr] == before + Repeat(c, count - n)
      {
        n := n - 1;
        buffer[inPtr] := c;
        inPtr := inPtr + 1;
      }
      Append(before, Repeat(c, count));
    }

    method PutString(s: seq<char>)
      requires Valid() && NulFree(s) && inPtr + |s| + 1 + FORMAT_RESERVE < SIZE_LIMIT
      modifies this, buffer
      ensures Valid() && Contents() == old(Contents()) + s && (fresh(buffer) || buffer == old(buffer))
    {
      ReserveSpace(|s|);
      ghost var before := Contents();
      var i := 0;
      while i < |s|
        invariant i <= |s| && inPtr + |s| < buffer.Length && inPtr == |before|
        invariant fresh(buffer) || buffer == old(buffer)
        invariant buffer[..inPtr + i] == before + s[..i]
      {
        buffer[inPtr + i] := s[i];
        i := i + 1;
      }
      assert s[..|s|] == s;
      buffer[inPtr + i] := '\0';
      inPtr := inPtr + |s|;
      assert buffer[..inPtr] == before + s;
      Append(before, s);
    }

    method PutSigned(minus: bool, text: seq<char>)
      requires Valid() && NulFree(text) && inPtr + |Sign(minus) + text| + 1 + FORMAT_RESERVE < SIZE_LIMIT
      modifies this, buffer
      ensures Valid() && (fresh(buffer) || buffer == old(buffer))
      ensures Contents() == old(Contents()) + (Sign(minus) + text)
    {
      if minus {
        PutChar('-', 1);
        assert Contents() == old(Contents()) + Sign(minus);
      }
      PutString(text);
    }

    /** Puts what is missing of a field. */
    method Pad(c: char, width: nat, len: nat)
      requires Valid() && c != '\0' && inPtr + |Padding(c, width, len)| + 1 + FORMAT_RESERVE < SIZE_LIMIT
      modifies this, buffer
      ensures Valid() && (fresh(buffer) || buffer == old(buffer))
      ensures Contents() == old(Contents()) + Padding(c, width, len)
    {
      if width > len {
        PutChar(c, width - len);
      }
    }

    /** Puts a text, with a sign if it has one, in a field of the given width. */
    method PutField(left: bool, pad: char, width: nat, minus: bool, text: seq<char>)
      requires Valid() && pad != '\0' && NulFree(text)
      requires inPtr + |Field(left, pad, width, Sign(minus) + text)| + 1 + FORMAT_RESERVE < SIZE_LIMIT
      modifies this, buffer
      ensures Valid() && (fresh(buffer) || buffer == old(buffer))
      ensures Contents() == old(Contents()) + Field(left, pad, width, Sign(minus) + text)
    {
      var len := |text| + (if minus then 1 else 0);
      if left {
        PutSigned(minus, text);
        Pad(' ', width, len);
        Associative(old(Contents()), Sign(minus) + text, Padding(' ', width, len));
      } else {
        Pad(pad, width, len);
        PutSigned(minus, text);
        Associative(old(Contents()), Padding(pad, width, len), Sign(minus) + text);
      }
    }

    method PutNumber(left: bool, pad: char, width: nat, minus: bool, number: nat, base: nat, upcase: bool)
      requires Valid() && pad != '\0' && number < LONG && 8 <= base <= 36 && FitsBuffer(number, base)
      requires inPtr + |Field(left, pad, width, Sign(minus) + NumberText(number, base, upcase))| + 1 + FORMAT_RESERVE < SIZE_LIMIT
      modifies this, buffer
      ensures Valid() && (fresh(buffer) || buffer == old(buffer))
      ensures Contents() == old(Contents()) + Field(left, pad, width, Sign(minus) + NumberText(number, base, upcase))
    {
      var numBuf := new char[MAX_NUMBER_LEN + 1];
      var len := Ntoa(numBuf, number, base, upcase);
      PutField(left, pad, width, minus, numBuf[..len]);
    }

    method PutCharacter(p: Piece, c: char)
      requires Valid() && TakesArg(p) && p.kind == 'c' && c != '\0' && inPtr + |Padded(p, Sign(false) + [c])| + 1 + FORMAT_RESERVE < SIZE_LIMIT
      modifies this, buffer
      ensures Valid() && (fresh(buffer) || buffer == old(buffer))
      ensures Contents() == old(Contents()) + Padded(p, Sign(false) + [c])
    {
      PutField(p.left, ' ', p.width, false, [c]);
    }

    method PutText(p: Piece, t: seq<char>)
      requires Valid() && TakesArg(p) && p.kind == 's' && NulFree(t) && inPtr + |Padded(p, Sign(false) + t)| + 1 + FORMAT_RESERVE < SIZE_LIMIT
      modifies this, buffer
      ensures Valid() && (fresh(buffer) || buffer == old(buffer))
      ensures Contents() == old(Contents()) + Padded(p, Sign(false) + t)
    {
      PutField(p.left, ' ', p.width, false, t);
    }

    method PutInteger(p: Piece, n: int)
      requires Valid() && TakesArg(p) && p.kind == 'd' && Magnitude(n) < LONG && FitsBuffer(Magnitude(n), 10)
      requires inPtr + |Padded(p, Sign(n < 0) + NumberText(Magnitude(n), 10, false))| + 1 + FORMAT_RESERVE < SIZE_LIMIT
      modifies this, buffer
      ensures Valid() && (fresh(buffer) || buffer == old(buffer))
      ensures Contents() == old(Contents()) + Padded(p, Sign(n < 0) + NumberText(Magnitude(n), 10, false))
    {
      PutNumber(p.left, ' ', p.width, n < 0, Magnitude(n), 10, false);
    }

    method PutUnsigned(p: Piece, n: nat)
      requires Valid() && TakesArg(p) && p.kind in {'o', 'u', 'x', 'X'} && n < LONG && FitsBuffer(n, Base(p.kind))
      requires inPtr + |Padded(p, Sign(false) + NumberText(n, Base(p.kind), p.kind == 'X'))| + 1 + FORMAT_RESERVE < SIZE_LIMIT
      modifies this, buffer
      ensures Valid() && (fresh(buffer) || buffer == old(buffer))
      ensures Contents() == old(Contents()) + Padded(p, Sign(false) + NumberText(n, Base(p.kind), p.kind == 'X'))
    {
      PutNumber(p.left, if p.zero then '0' else ' ', p.width, false, n, Base(p.kind), p.kind == 'X');
    }

    /** One conversion of an argument. */
    method PutArgument(p: Piece, arg: Arg)
      requires Valid() && TakesArg(p) && Suits(p, arg)
      requires inPtr + |Padded(p, Body(p, arg))| + 1 + FORMAT_RESERVE < SIZE_LIMIT
      modifies this, buffer
      ensures Valid() && (fresh(buffer) || buffer == old(buffer))
      ensures Contents() == old(Contents()) + Padded(p, Body(p, arg))
    {
      SuitsFits(p, arg);
      if p.kind == 'c' {
        PutCharacter(p, arg.c);
      } else if p.kind == 's' {
        PutText(p, arg.s);
      } else if p.kind == 'd' {
        PutInteger(p, arg.n);
      } else {
        PutUnsigned(p, arg.n);
      }
    }

    method PutUnknown(letter: char)
      requires Valid() && letter != '\0' && inPtr + 2 + 1 + FORMAT_RESERVE < SIZE_LIMIT
      modifies this, buffer
      ensures Valid() && (fresh(buffer) || buffer == old(buffer))
      ensures Contents() == old(Contents()) + ['%', letter]
    {
      PutChar('%', 1);
      assert Contents() == old(Contents()) + ['%'];
      PutChar(letter, 1);
    }

    /** A conversion that takes an argument. */
    method PutKnown(f: seq<char>, i: nat, p: Piece, args: seq<Arg>, ghost whole: seq<char>)
      requires Valid() && i <= |f| && TakesArg(p) && args != [] && Suits(p, args[0]) && |whole| + 1 + FORMAT_RESERVE < SIZE_LIMIT
      requires |Contents()| + |Padded(p, Body(p, args[0]))| <= |whole| && Remains(f, i, args[1..], Contents() + Padded(p, Body(p, args[0])), whole)
      modifies this, buffer
      ensures Valid() && (fresh(buffer) || buffer == old(buffer))
      ensures Remains(f, i, args[1..], Contents(), whole)
    {
      PutArgument(p, args[0]);
    }

    /** A conversion; `start` is behind the percent sign. */
    method PutConversion(f: seq<char>, start: nat, args: seq<Arg>, ghost whole: seq<char>) returns (i: nat, rest: seq<Arg>)
      requires Valid() && NulFree(f) && 0 < start <= |f| && f[start-1] == '%' && !(start < |f| && f[start] == '%')
      requires Remains(f, start - 1, args, Contents(), whole) && |whole| + 1 + FORMAT_RESERVE < SIZE_LIMIT
      modifies this, buffer
      ensures Valid() && (fresh(buffer) || buffer == old(buffer))
      ensures start < i <= |f| && Remains(f, i, rest, Contents(), whole)
    {
      NextConversion(f, start, args, Contents(), whole);
      var p;
      p, i := Scan(f, start);
      if f[i] in KINDS {
        PutKnown(f, i + 1, p, args, whole);
        rest := args[1..];
      } else {
        PutUnknown(f[i]);
        rest := args;
      }
      i := i + 1;
    }

    method PutPlain(c: char)
      requires Valid() && c != '\0' && inPtr + 1 + 1 + FORMAT_RESERVE < SIZE_LIMIT
      modifies this, buffer
      ensures Valid() && (fresh(buffer) || buffer == old(buffer))
      ensures Contents() == old(Contents()) + [c]
    {
      PutChar(c, 1);
      assert Repeat(c, 1) == [c];
    }

    /** Formats into a new buffer: the pieces of the format in order, and a final NUL within the buffer. */
    method FormatV(f: seq<char>, args: seq<Arg>)
      requires NulFree(f) && Parse(f, 0).Pieces? && Supplied(Parse(f, 0).pieces, args)
      requires |Formatted(Parse(f, 0).pieces, args)| + 1 + FORMAT_RESERVE < SIZE_LIMIT
      modifies this
      ensures Valid() && fresh(buffer)
      ensures Contents() == Formatted(Parse(f, 0).pieces, args) && buffer[inPtr] == '\0'
    {
      buffer := new char[FORMAT_RESERVE];
      inPtr := 0;
      ghost var whole := Formatted(Parse(f, 0).pieces, args);
      var i: nat, rest := 0, args;
      while i < |f|
        invariant i <= |f| && Valid() && fresh(buffer)
        invariant Remains(f, i, rest, Contents(), whole)
        decreases |f| - i
      {
        if f[i] == '%' {
          i := i + 1;
          if i < |f| && f[i] == '%' {
            NextPiece(f, i - 1, rest, Contents(), whole);
            PutPlain('%');
            i := i + 1;
            continue;
          }
          i, rest := PutConversion(f, i, rest, whole);
        } else {
          NextPiece(f, i, rest, Contents(), whole);
          PutPlain(f[i]);
          i := i + 1;
        }
      }
      buffer[inPtr] := '\0';
    }
  }

  /** Reads a conversion up to its letter. */
  method Scan(f: seq<char>, start: nat) returns (p: Piece, i: nat)
    requires start <= |f| && LetterAt(f, start) < |f|
    ensures i == LetterAt(f, start) && p == ConversionAt(f, start)
  {
    i := start;
    var left, zero, width: nat := false, false, 0;
    if i < |f| && f[i] == '-' {
      left := true;
      i := i + 1;
    }
    if i < |f| && f[i] == '0' {
      zero := true;
      i := i + 1;
    }
    ghost var z := i;
    while i < |f| && IsDigit(f[i])
      invariant z <= i <= |f|
      invariant SkipDigits(f, i) == SkipDigits(f, z) && Width(f, i, width) == Width(f, z, 0)
    {
      width := (width * 10 + DigitValue(f[i])) % SIZE_LIMIT;
      i := i + 1;
    }
    var long := false;
    if i < |f| && f[i] == 'l' {
      long := true;
      i := i + 1;
    }
    p := Conversion(left, zero, width, long, f[i]);
  }

  /** The text put so far and the text of the pieces to come make up the whole. */
  ghost predicate Remains(f: seq<char>, i: nat, args: seq<Arg>, done: seq<char>, whole: seq<char>)
    requires i <= |f|
  {
    Parse(f, i).Pieces? && Supplied(Parse(f, i).pieces, args) && whole == done + Formatted(Parse(f, i).pieces, args)
  }

  /** Where the next piece ends. */
  function PieceEnd(f: seq<char>, i: nat): nat
    requires i < |f|
  {
    if f[i] != '%' then i + 1
    else if i + 1 < |f| && f[i+1] == '%' then i + 2
    else LetterAt(f, i + 1) + 1
  }

  /** What the next piece contributes. */
  lemma NextPiece(f: seq<char>, i: nat, args: seq<Arg>, done: seq<char>, whole: seq<char>)
    requires i < |f| && Remains(f, i, args, done, whole)
    ensures PieceEnd(f, i) <= |f|
    ensures f[i] == '%' && !(i + 1 < |f| && f[i+1] == '%') ==> LetterAt(f, i + 1) < |f|
    ensures if f[i] != '%' then Remains(f, i + 1, args, done + [f[i]], whole)
            else if i + 1 < |f| && f[i+1] == '%' then Remains(f, i + 2, args, done + ['%'], whole)
            else
              var p := ConversionAt(f, i + 1);
              if TakesArg(p) then args != [] && Suits(p, args[0]) && Remains(f, PieceEnd(f, i), args[1..], done + Padded(p, Body(p, args[0])), whole)
              else Remains(f, PieceEnd(f, i), args, done + ['%', p.kind], whole)
  {
    var rest := Parse(f, PieceEnd(f, i));
    assert rest.Pieces?;
    assert Parse(f, i).pieces[1..] == rest.pieces;
  }

  /** What the conversion behind a percent sign contributes. */
  lemma NextConversion(f: seq<char>, start: nat, args: seq<Arg>, done: seq<char>, whole: seq<char>)
    requires 0 < start <= |f| && f[start-1] == '%' && !(start < |f| && f[start] == '%') && Remains(f, start - 1, args, done, whole)
    ensures LetterAt(f, start) < |f|
    ensures var p := ConversionAt(f, start);
            var i := LetterAt(f, start) + 1;
            if f[i-1] in KINDS then
              && args != [] && Suits(p, args[0]) && |done| + |Padded(p, Body(p, args[0]))| <= |whole|
              && Remains(f, i, args[1..], done + Padded(p, Body(p, args[0])), whole)
            else |done| + 2 <= |whole| && Remains(f, i, args, done + ['%', f[i-1]], whole)
  {
    NextPiece(f, start - 1, args, done, whole);
  }

  // ----- What the pieces mean ------------------------------------------------------------------------------------------

  const NUMERIC: set<char> := {'o', 'u', 'x', 'X'}

  /** A field is as wide as asked for, or as its text. A left-justified text stands at the beginning and spaces follow; any
      other stands at the end, behind zeros if they are asked for and it is an unsigned number, and behind spaces
      otherwise. */
  lemma FieldMeans(p: Piece, text: seq<char>)
    requires p.Conversion?
    ensures var s := Padded(p, text);
            var n := |text|;
            && |s| == (if p.width > n then p.width else n)
            && (p.left ==> s[..n] == text && forall i :: n <= i < |s| ==> s[i] == ' ')
            && (!p.left ==> s[|s|-n..] == text && forall i :: 0 <= i < |s| - n ==> s[i] == if p.zero && p.kind in NUMERIC then '0' else ' ')
  {}

  /** The text of an argument: the character or string itself, or a numeral that reads back as the number, in base 8 for
      `o`, 16 for `x` and `X`, 10 otherwise, with capital letters for `X`; a minus sign stands before negative numbers. */
  lemma BodyMeans(p: Piece, a: Arg)
    requires TakesArg(p) && Suits(p, a)
    ensures p.kind == 'c' ==> Body(p, a) == [a.c]
    ensures p.kind == 's' ==> Body(p, a) == a.s
    ensures p.kind == 'd' && a.n >= 0 ==> ReadNumber(Body(p, a), 10) == a.n && Body(p, a)[0] != '-'
    ensures p.kind == 'd' && a.n < 0 ==> |Body(p, a)| > 1 && Body(p, a)[0] == '-' && ReadNumber(Body(p, a)[1..], 10) == -a.n
    ensures p.kind in NUMERIC ==> ReadNumber(Body(p, a), if p.kind == 'o' then 8 else if p.kind == 'u' then 10 else 16) == a.n
    ensures p.kind in NUMERIC ==> forall i :: 0 <= i < |Body(p, a)| ==> (if p.kind == 'X' then !('a' <= Body(p, a)[i] <= 'z') else !('A' <= Body(p, a)[i] <= 'Z'))
  {
    if p.kind == 'd' {
      SignedMeans(p, a);
    } else if p.kind in NUMERIC {
      UnsignedMeans(p, a);
    } else {
      TextMeans(p, a);
    }
  }

  lemma TextMeans(p: Piece, a: Arg)
    requires TakesArg(p) && Suits(p, a) && p.kind in {'c', 's'}
    ensures Body(p, a) == if p.kind == 'c' then [a.c] else a.s
  {}

  lemma SignedMeans(p: Piece, a: Arg)
    requires TakesArg(p) && Suits(p, a) && p.kind == 'd'
    ensures a.n >= 0 ==> ReadNumber(Body(p, a), 10) == a.n && Body(p, a)[0] != '-'
    ensures a.n < 0 ==> |Body(p, a)| > 1 && Body(p, a)[0] == '-' && ReadNumber(Body(p, a)[1..], 10) == -a.n
  {
    var t := NumberText(Magnitude(a.n), 10, false);
    NumberReads(Magnitude(a.n), 10, false);
    assert Body(p, a) == Sign(a.n < 0) + t;
    if a.n < 0 {
      assert (['-'] + t)[1..] == t;
    } else {
      assert [] + t == t;
    }
  }

  lemma UnsignedMeans(p: Piece, a: Arg)
    requires TakesArg(p) && Suits(p, a) && p.kind in NUMERIC
    ensures ReadNumber(Body(p, a), if p.kind == 'o' then 8 else if p.kind == 'u' then 10 else 16) == a.n
    ensures forall i :: 0 <= i < |Body(p, a)| ==> (if p.kind == 'X' then !('a' <= Body(p, a)[i] <= 'z') else !('A' <= Body(p, a)[i] <= 'Z'))
  {
    var t := NumberText(a.n, Base(p.kind), p.kind == 'X');
    NumberReads(a.n, Base(p.kind), p.kind == 'X');
    assert Body(p, a) == Sign(false) + t == t;
  }

  // ----- Formats read back ------------------------------------------------------------------------------------------------

  function If(b: bool, s: seq<char>): seq<char> { if b then s else [] }

  /** How a conversion is written. */
  function Written(p: Piece): seq<char>
    requires p.Conversion?
  {
    "%" + (If(p.left, "-") + (If(p.zero, "0") + (If(p.width > 0, NumberText(p.width, 10, false)) + (If(p.long, "l") + [p.kind]))))
  }

  lemma {:induction false} PrefixSmaller(ds: seq<nat>, i: nat)
    requires i <= |ds|
    ensures Value(ds[..i], 10) <= Value(ds, 10)
    decreases |ds|
  {
    if i < |ds| {
      PrefixSmaller(ds[..|ds|-1], i);
      assert ds[..|ds|-1][..i] == ds[..i];
    } else {
      assert ds[..i] == ds;
    }
  }

  lemma ValueStep(ds: seq<nat>, i: nat)
    requires i < |ds|
    ensures Value(ds[..i+1], 10) == 10 * Value(ds[..i], 10) + ds[i] <= Value(ds, 10)
  {
    PrefixSmaller(ds, i + 1);
    assert ds[..i+1][..i] == ds[..i] && ds[..i+1][i] == ds[i];
  }

  lemma DigitIs(d: nat)
    requires d < 10
    ensures IsDigit(DigitChar(d, false)) && DigitValue(DigitChar(d, false)) == d && (d != 0 ==> DigitChar(d, false) != '0')
  {}

  lemma WidthStep(f: seq<char>, j: nat, sofar: nat)
    requires j < |f| && IsDigit(f[j]) && sofar * 10 + DigitValue(f[j]) < SIZE_LIMIT
    ensures SkipDigits(f, j) == SkipDigits(f, j + 1) && Width(f, j, sofar) == Width(f, j + 1, sofar * 10 + DigitValue(f[j]))
  {}

  predicate DigitsAt(f: seq<char>, z: nat, ds: seq<nat>) {
    z + |ds| <= |f| && forall k :: 0 <= k < |ds| ==> ds[k] < 10 && f[z+k] == DigitChar(ds[k], false)
  }

  /** The digits of a numeral are read as its value. */
  lemma {:induction false} DigitsRead(f: seq<char>, z: nat, ds: seq<nat>, i: nat)
    requires DigitsAt(f, z, ds) && Value(ds, 10) < SIZE_LIMIT
    requires i <= |ds| && (z + |ds| < |f| ==> !IsDigit(f[z+|ds|]))
    ensures SkipDigits(f, z + i) == z + |ds| && Width(f, z + i, Value(ds[..i], 10)) == Value(ds, 10)
    decreases |ds| - i
  {
    if i < |ds| {
      ValueStep(ds, i);
      DigitIs(ds[i]);
      WidthStep(f, z + i, Value(ds[..i], 10));
      DigitsRead(f, z, ds, i + 1);
    } else {
      assert ds[..i] == ds;
    }
  }

  /** The digits that a width is written with. */
  function WidthDigits(width: nat): seq<nat> {
    if width > 0 then NumeralOf(width, 10) else []
  }

  lemma WidthIsRead(f: seq<char>, z: nat, width: nat, rest: seq<char>)
    requires z <= |f| && f[z..] == If(width > 0, NumberText(width, 10, false)) + rest && width < SIZE_LIMIT
    requires rest != [] && !IsDigit(rest[0])
    ensures Width(f, z, 0) == width && SkipDigits(f, z) == |f| - |rest|
    ensures width > 0 ==> f[z..] != [] && IsDigit(f[z]) && f[z] != '0'
  {
    var ds := WidthDigits(width);
    WidthStands(f, z, width, rest);
    DigitsRead(f, z, ds, 0);
    assert ds[..0] == [];
    if width > 0 {
      DigitIs(ds[0]);
      assert f[z] == f[z+0] == DigitChar(ds[0], false);
    }
  }

  lemma WidthStands(f: seq<char>, z: nat, width: nat, rest: seq<char>)
    requires z <= |f| && f[z..] == If(width > 0, NumberText(width, 10, false)) + rest && rest != []
    ensures var ds := WidthDigits(width);
            && |f| == z + |ds| + |rest| && DigitsAt(f, z, ds) && Value(ds, 10) == width && (ds != [] ==> ds[0] != 0)
            && f[z+|ds|] == rest[0]
  {
    var ds := WidthDigits(width);
    NumeralIsRight(width, 10);
    forall k | 0 <= k < |ds|
      ensures ds[k] < 10 && f[z+k] == DigitChar(ds[k], false)
    {
      assert f[z..][k] == f[z+k];
    }
    assert f[z+|ds|] == f[z..][|ds|] == rest[0];
  }

  /** A letter that is not taken for a flag, a width or a percent sign. */
  predicate IsLetter(c: char) {
    !IsDigit(c) && c != '-' && c != 'l' && c != '%'
  }

  /** What follows the flags of a written conversion. */
  function Letters(p: Piece): seq<char>
    requires p.Conversion?
  {
    If(p.long, "l") + [p.kind]
  }

  function Digits10(p: Piece): seq<char>
    requires p.Conversion?
  {
    If(p.width > 0, NumberText(p.width, 10, false)) + Letters(p)
  }

  /** Where the parts of a written conversion begin. */
  lemma PartsBegin(p: Piece, f: seq<char>, m: nat, z: nat)
    requires p.Conversion? && IsLetter(p.kind) && f == Written(p)
    requires m == (if p.left then 2 else 1) && z == if p.zero then m + 1 else m
    ensures z < |f| && |f| > 1 && f[z..] == Digits10(p) && f[0] == '%'
    ensures (f[1] == '-' <==> p.left) && (f[m] == '0' <==> p.zero) && f[1] != '%'
  {
    var zeros := If(p.zero, "0") + Digits10(p);
    var flags := If(p.left, "-") + zeros;
    Behind(f, 0, "%", flags);
    Behind(f, 1, If(p.left, "-"), zeros);
    Behind(f, m, If(p.zero, "0"), Digits10(p));
    FirstOfDigits(p);
    FlagsFirst(p, flags, zeros);
  }

  /** How its width is read, and where its letters stand. */
  lemma WidthBegins(p: Piece, f: seq<char>, z: nat)
    requires p.Conversion? && p.width < SIZE_LIMIT && IsLetter(p.kind) && z <= |f| && f[z..] == Digits10(p)
    ensures |f| >= |Letters(p)| && f[|f|-|Letters(p)|..] == Letters(p)
    ensures Width(f, z, 0) == p.width && SkipDigits(f, z) == |f| - |Letters(p)|
  {
    WidthIsRead(f, z, p.width, Letters(p));
    EndsIn(f, z, If(p.width > 0, NumberText(p.width, 10, false)), Letters(p));
  }

  lemma FlagsFirst(p: Piece, flags: seq<char>, zeros: seq<char>)
    requires p.Conversion? && zeros == If(p.zero, "0") + Digits10(p) && flags == If(p.left, "-") + zeros
    requires Digits10(p) != [] && Digits10(p)[0] != '-' && Digits10(p)[0] != '0' && Digits10(p)[0] != '%'
    ensures flags != [] && zeros != [] && (flags[0] == '-' <==> p.left) && flags[0] != '%' && (zeros[0] == '0' <==> p.zero)
  {}

  lemma EndsIn(f: seq<char>, i: nat, a: seq<char>, b: seq<char>)
    requires i <= |f| && f[i..] == a + b
    ensures |f| >= |b| && f[|f|-|b|..] == b
  {
    assert f[|f|-|b|..] == f[i..][|a|..];
  }

  lemma Behind(f: seq<char>, i: nat, a: seq<char>, b: seq<char>)
    requires i <= |f| && f[i..] == a + b
    ensures i + |a| <= |f| && f[i+|a|..] == b
    ensures b != [] ==> i + |a| < |f| && f[i+|a|] == b[0]
    ensures a != [] ==> f[i] == a[0]
  {
    assert f[i+|a|..] == f[i..][|a|..];
  }

  /** What the width or the letters begin with is no flag. */
  lemma FirstOfDigits(p: Piece)
    requires p.Conversion? && IsLetter(p.kind)
    ensures Digits10(p) != [] && Digits10(p)[0] != '-' && Digits10(p)[0] != '0' && Digits10(p)[0] != '%'
  {
    if p.width > 0 {
      NumeralIsRight(p.width, 10);
      DigitIs(NumeralOf(p.width, 10)[0]);
    }
  }

  lemma LettersEnd(p: Piece, f: seq<char>, l: nat)
    requires p.Conversion? && IsLetter(p.kind) && l <= |f| && f[l..] == Letters(p)
    ensures l + |Letters(p)| == |f| && AfterLong(f, l) == |f| - 1 && f[|f|-1] == p.kind && (|f| - 1 > l <==> p.long)
  {
    assert f[l] == f[l..][0];
    assert f[|f|-1] == f[l..][|f| - 1 - l];
  }

  /** A conversion reads back as it was written, with its flags, width and letter. */
  lemma ReadsBack(p: Piece)
    requires p.Conversion? && p.width < SIZE_LIMIT && IsLetter(p.kind)
    ensures Parse(Written(p), 0) == Pieces([p])
  {
    var f := Written(p);
    var m := if p.left then 2 else 1;
    var z := if p.zero then m + 1 else m;
    PartsBegin(p, f, m, z);
    WidthBegins(p, f, z);
    var l := |f| - |Letters(p)|;
    LettersEnd(p, f, l);
    FlagsRead(f, p, m, z, l);
    OnePiece(f, p);
  }

  lemma FlagsRead(f: seq<char>, p: Piece, m: nat, z: nat, l: nat)
    requires p.Conversion? && 1 <= m <= z <= l < |f| && m < |f|
    requires m == (if p.left then 2 else 1) && z == if p.zero then m + 1 else m
    requires (f[1] == '-' <==> p.left) && (f[m] == '0' <==> p.zero) && Width(f, z, 0) == p.width && SkipDigits(f, z) == l
    requires AfterLong(f, l) == |f| - 1 && f[|f|-1] == p.kind && (|f| - 1 > l <==> p.long)
    ensures LetterAt(f, 1) == |f| - 1 && ConversionAt(f, 1) == p
  {}

  lemma OnePiece(f: seq<char>, p: Piece)
    requires |f| > 1 && f[0] == '%' && f[1] != '%' && LetterAt(f, 1) == |f| - 1 && ConversionAt(f, 1) == p
    ensures Parse(f, 0) == Pieces([p])
  {
    assert Parse(f, |f|) == Pieces([]);
  }

  // ----- Formats can be put together -------------------------------------------------------------------------------

  /** Scanning a conversion that is complete in `f` does not look at what follows `f`. */
  lemma {:induction false} DigitsAlone(f: seq<char>, g: seq<char>, i: nat, sofar: nat)
    requires i <= |f| && SkipDigits(f, i) < |f|
    ensures SkipDigits(f + g, i) == SkipDigits(f, i) && Width(f + g, i, sofar) == Width(f, i, sofar)
    decreases |f| - i
  {
    if IsDigit(f[i]) {
      DigitsAlone(f, g, i + 1, (sofar * 10 + DigitValue(f[i])) % SIZE_LIMIT);
    }
  }

  lemma ConversionAlone(f: seq<char>, g: seq<char>, i: nat)
    requires i <= |f| && LetterAt(f, i) < |f|
    ensures LetterAt(f + g, i) == LetterAt(f, i) && ConversionAt(f + g, i) == ConversionAt(f, i)
  {
    var z := AfterZero(f, AfterMinus(f, i));
    assert SkipDigits(f, z) < |f|;
    DigitsAlone(f, g, z, 0);
  }

  lemma {:induction false} DigitsBehind(f: seq<char>, g: seq<char>, i: nat, sofar: nat)
    requires i <= |g|
    ensures SkipDigits(f + g, |f| + i) == |f| + SkipDigits(g, i) && Width(f + g, |f| + i, sofar) == Width(g, i, sofar)
    decreases |g| - i
  {
    if i < |g| {
      assert (f + g)[|f| + i] == g[i];
      if IsDigit(g[i]) {
        DigitsBehind(f, g, i + 1, (sofar * 10 + DigitValue(g[i])) % SIZE_LIMIT);
      }
    }
  }

  lemma ConversionBehind(f: seq<char>, g: seq<char>, i: nat)
    requires i <= |g|
    ensures LetterAt(f + g, |f| + i) == |f| + LetterAt(g, i)
    ensures LetterAt(g, i) < |g| ==> ConversionAt(f + g, |f| + i) == ConversionAt(g, i)
  {
    assert AfterMinus(f + g, |f| + i) == |f| + AfterMinus(g, i);
    assert AfterZero(f + g, |f| + AfterMinus(g, i)) == |f| + AfterZero(g, AfterMinus(g, i));
    DigitsBehind(f, g, AfterZero(g, AfterMinus(g, i)), 0);
  }

  lemma {:induction false} ParseBehind(f: seq<char>, g: seq<char>, i: nat)
    requires i <= |g|
    ensures Parse(f + g, |f| + i) == Parse(g, i)
    decreases |g| - i
  {
    if i < |g| {
      assert (f + g)[|f| + i] == g[i];
      if g[i] != '%' {
        ParseBehind(f, g, i + 1);
      } else if i + 1 < |g| && g[i+1] == '%' {
        ParseBehind(f, g, i + 2);
      } else {
        ConversionBehind(f, g, i + 1);
        if LetterAt(g, i + 1) < |g| {
          ParseBehind(f, g, LetterAt(g, i + 1) + 1);
        }
      }
    }
  }

  ghost function Joined(p: Parsed, q: Parsed): Parsed {
    if p.Pieces? && q.Pieces? then Pieces(p.pieces + q.pieces) else Truncated
  }

  lemma JoinedCons(p: Piece, rest: Parsed, q: Parsed)
    ensures Joined(Cons(p, rest), q) == Cons(p, Joined(rest, q))
  {
    assert rest.Pieces? && q.Pieces? ==> ([p] + rest.pieces) + q.pieces == [p] + (rest.pieces + q.pieces);
  }

  /** The pieces of two formats in a row, when the first does not end within a conversion. */
  lemma {:induction false} ParseAppend(f: seq<char>, g: seq<char>, i: nat)
    requires i <= |f| && Parse(f, i).Pieces?
    ensures Parse(f + g, i) == Joined(Parse(f, i), Parse(g, 0))
    decreases |f| - i
  {
    if i == |f| {
      ParseBehind(f, g, 0);
      assert Joined(Pieces([]), Parse(g, 0)) == Parse(g, 0);
    } else if f[i] != '%' {
      JoinedCons(Plain(f[i]), Parse(f, i + 1), Parse(g, 0));
      ParseAppend(f, g, i + 1);
    } else if i + 1 < |f| && f[i+1] == '%' {
      JoinedCons(Plain('%'), Parse(f, i + 2), Parse(g, 0));
      ParseAppend(f, g, i + 2);
    } else {
      ParseAppendConversion(f, g, i);
    }
  }

  lemma {:induction false} ParseAppendConversion(f: seq<char>, g: seq<char>, i: nat)
    requires i < |f| && Parse(f, i).Pieces? && f[i] == '%' && !(i + 1 < |f| && f[i+1] == '%')
    ensures Parse(f + g, i) == Joined(Parse(f, i), Parse(g, 0))
    decreases |f| - i, 0
  {
    var j := LetterAt(f, i + 1);
    assert j < |f|;
    ConversionAlone(f, g, i + 1);
    JoinedCons(ConversionAt(f, i + 1), Parse(f, j + 1), Parse(g, 0));
    ParseAppend(f, g, j + 1);
  }

  lemma AppendStep(p: Piece, ps: seq<Piece>, a: seq<Arg>)
    requires Supplied([p] + ps, a)
    ensures if TakesArg(p) then
              && a != [] && Suits(p, a[0]) && Supplied(ps, a[1..])
              && Formatted([p] + ps, a) == Padded(p, Body(p, a[0])) + Formatted(ps, a[1..])
            else Supplied(ps, a) && Formatted([p] + ps, a) == (if p.Plain? then [p.c] else ['%', p.kind]) + Formatted(ps, a)
  {
    assert ([p] + ps)[1..] == ps;
  }

  lemma SuppliedStep(p: Piece, ps: seq<Piece>, a: seq<Arg>)
    requires if TakesArg(p) then a != [] && Suits(p, a[0]) && Supplied(ps, a[1..]) else Supplied(ps, a)
    ensures Supplied([p] + ps, a)
  {
    assert ([p] + ps)[1..] == ps;
  }

  lemma ArgumentsAppend(a: seq<Arg>, b: seq<Arg>)
    requires a != []
    ensures a + b != [] && (a + b)[0] == a[0] && (a + b)[1..] == a[1..] + b
  {}

  /** One piece more in front of two formats in a row. */
  lemma AppendCons(p: Piece, rest: seq<Piece>, q: seq<Piece>, a: seq<Arg>, a1: seq<Arg>, b: seq<Arg>)
    requires Supplied([p] + rest, a) && Supplied(q, b) && a1 == (if TakesArg(p) && a != [] then a[1..] else a)
    requires Supplied(rest, a1) && Supplied(rest + q, a1 + b) && Formatted(rest + q, a1 + b) == Formatted(rest, a1) + Formatted(q, b)
    ensures Supplied([p] + (rest + q), a + b) && Formatted([p] + (rest + q), a + b) == Formatted([p] + rest, a) + Formatted(q, b)
  {
    AppendStep(p, rest, a);
    if TakesArg(p) {
      ArgumentsAppend(a, b);
      Associative(Padded(p, Body(p, a[0])), Formatted(rest, a1), Formatted(q, b));
    } else {
      Associative(if p.Plain? then [p.c] else ['%', p.kind], Formatted(rest, a1), Formatted(q, b));
    }
    SuppliedStep(p, rest + q, a + b);
    AppendStep(p, rest + q, a + b);
  }

  lemma {:induction false} FormattedAppend(p: seq<Piece>, q: seq<Piece>, a: seq<Arg>, b: seq<Arg>)
    requires Supplied(p, a) && Supplied(q, b) && |a| == Taken(p)
    ensures Supplied(p + q, a + b) && Formatted(p + q, a + b) == Formatted(p, a) + Formatted(q, b)
    decreases |p|
  {
    if p == [] {
      assert p + q == q && a + b == b;
    } else {
      var rest := p[1..];
      assert p == [p[0]] + rest && p + q == [p[0]] + (rest + q);
      AppendStep(p[0], rest, a);
      var a1 := if TakesArg(p[0]) then a[1..] else a;
      FormattedAppend(rest, q, a1, b);
      AppendCons(p[0], rest, q, a, a1, b);
    }
  }

  function Taken(pieces: seq<Piece>): nat {
    if pieces == [] then 0 else (if TakesArg(pieces[0]) then 1 else 0) + Taken(pieces[1..])
  }

  /** Formatting two formats in a row gives the two texts in a row. */
  lemma FormatsCompose(f: seq<char>, g: seq<char>, a: seq<Arg>, b: seq<Arg>)
    requires Parse(f, 0).Pieces? && Parse(g, 0).Pieces?
    requires Supplied(Parse(f, 0).pieces, a) && Supplied(Parse(g, 0).pieces, b) && |a| == Taken(Parse(f, 0).pieces)
    ensures Parse(f + g, 0).Pieces? && Supplied(Parse(f + g, 0).pieces, a + b)
    ensures Formatted(Parse(f + g, 0).pieces, a + b) == Formatted(Parse(f, 0).pieces, a) + Formatted(Parse(g, 0).pieces, b)
  {
    ParseAppend(f, g, 0);
    FormattedAppend(Parse(f, 0).pieces, Parse(g, 0).pieces, a, b);
  }

  lemma SuitsFits(p: Piece, a: Arg)
    requires TakesArg(p) && Suits(p, a)
    ensures p.kind == 'd' ==> Magnitude(a.n) < LONG && FitsBuffer(Magnitude(a.n), 10)
    ensures p.kind in {'o', 'u', 'x', 'X'} ==> a.n < LONG && FitsBuffer(a.n, Base(p.kind))
  {
    if p.kind == 'd' {
      LongOverflows();
      assert Pow(10, 11) == 100_000_000_000;
    } else if p.kind in {'o', 'u', 'x', 'X'} && !p.long {
      NumBufExactly(a.n, Base(p.kind), false);
    }
  }

  lemma Associative(a: seq<char>, b: seq<char>, c: seq<char>)
    ensures (a + b) + c == a + (b + c)
  {}

  lemma Append(a: seq<char>, b: seq<char>)
    requires NulFree(a) && NulFree(b)
    ensures NulFree(a + b)
  {}

  // ----- ntoa ----------------------------------------------------------------------------------------------------

  /** The largest divisor whose quotient is a digit. It never overflows. */
  method FindDivisor(number: nat, base: nat) returns (divisor: nat, digit: nat, ghost k: nat)
    requires number < LONG && 2 <= base
    ensures divisor == Pow(base, k) > 0 && divisor < LONG && digit == number / divisor < base
    ensures k > 0 ==> divisor <= number
  {
    divisor, digit, k := 1, number, 0;
    while digit >= base
      invariant divisor == Pow(base, k) > 0 && digit == number / divisor
      invariant k > 0 ==> divisor <= number
      invariant divisor < LONG
      decreases number - divisor
    {
      NextPower(number, divisor, base);
      divisor := (divisor * base) % LONG;
      k := k + 1;
      digit := number / divisor;
    }
  }

  /** Writes the text of a number of at most 11 digits and a NUL into a buffer of 12 characters. */
  method Ntoa(dest: array<char>, number: nat, base: nat, upcase: bool) returns (len: nat)
    requires number < LONG && 2 <= base <= 36 && FitsBuffer(number, base) && dest.Length == MAX_NUMBER_LEN + 1
    modifies dest
    ensures len == |NumberText(number, base, upcase)| < dest.Length
    ensures dest[..len] == NumberText(number, base, upcase) && dest[len] == '\0'
  {
    var divisor, digit, e := FindDivisor(number, base);
    ghost var ds := TopDigits(number, base, e);
    var n: nat := number;
    len := 0;
    while true
      invariant 0 <= e && len + e + 1 == |ds| < dest.Length
      invariant divisor == Pow(base, e) > 0 && digit == n / divisor
      invariant FromTop(n, base, e) == ds[len..]
      invariant forall i :: 0 <= i < |ds| ==> ds[i] < base
      invariant forall i :: 0 <= i < len ==> dest[i] == DigitChar(ds[i], upcase)
      decreases e
    {
      FirstFromTop(n, base, e, ds, len);
      n := n % divisor;
      dest[len] := DigitChar(digit, upcase);
      len := len + 1;
      NextDivisor(base, e);
      divisor := divisor / base;
      if divisor == 0 {
        break;
      }
      e := e - 1;
      digit := n / divisor;
    }
    dest[len] := '\0';
    assert dest[..len] == Digits.Text(ds, upcase);
  }

  lemma TopDigits(n: nat, base: nat, k: nat) returns (ds: seq<nat>)
    requires FitsBuffer(n, base) && 2 <= base <= 36 && n / Pow(base, k) < base && (k > 0 ==> Pow(base, k) <= n)
    ensures ds == FromTop(n, base, k) == NumeralOf(n, base) && |ds| == k + 1 <= MAX_NUMBER_LEN
    ensures forall i :: 0 <= i < |ds| ==> ds[i] < base
  {
    DivBelow(n, Pow(base, k), base);
    FromTopIsNumeral(n, base, k);
    LengthExactly(n, base, MAX_NUMBER_LEN);
    FromTopValue(n, base, k);
    ds := FromTop(n, base, k);
  }

  lemma FirstFromTop(n: nat, base: nat, e: nat, ds: seq<nat>, len: nat)
    requires base >= 2 && len < |ds| && FromTop(n, base, e) == ds[len..]
    ensures ds[len] == n / Pow(base, e)
    ensures e > 0 ==> FromTop(n % Pow(base, e), base, e - 1) == ds[len+1..]
  {
    assert ds[len] == ds[len..][0];
    assert e > 0 ==> ds[len+1..] == ds[len..][1..];
  }

  lemma NextDivisor(base: nat, e: nat)
    requires base >= 2
    ensures Pow(base, e) / base == (if e == 0 then 0 else Pow(base, e - 1))
  {
    if e > 0 {
      DivMod(Pow(base, e), base, Pow(base, e - 1), 0);
    }
  }

  lemma NextPower(n: nat, divisor: nat, base: nat)
    requires divisor > 0 && base >= 2 && n / divisor >= base
    ensures divisor < divisor * base <= n
  {
    DivBelow(n, divisor, base);
    assert divisor * base == divisor + divisor * (base - 1);
    AtLeast(divisor, base - 1);
  }
}
