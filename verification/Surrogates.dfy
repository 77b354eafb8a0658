/** The scan that rejects unpaired UTF-16 surrogate escapes before a JSON document is decoded. */
module Surrogates {

  // ----- hexadecimal -----

  predicate IsHex(c: char) { '0' <= c <= '9' || 'a' <= c <= 'f' || 'A' <= c <= 'F' }

  function HexDigit(c: char): nat {
    if '0' <= c <= '9' then c as nat - '0' as nat
    else if 'a' <= c <= 'f' then c as nat - 'a' as nat + 10
    else if 'A' <= c <= 'F' then c as nat - 'A' as nat + 10
    else 0
  }

  /** The code unit four hexadecimal digits denote. */
  function Unit(h: string): nat
    requires |h| >= 4
  {
    4096 * HexDigit(h[0]) + 256 * HexDigit(h[1]) + 16 * HexDigit(h[2]) + HexDigit(h[3])
  }

  /** parseHex4: shifting in four digits. */
  method ParseHex4(b: string) returns (r: nat)
    requires |b| >= 4
    ensures r == Unit(b)
  {
    r := 0;
    for i := 0 to 4
      invariant i == 0 ==> r == 0
      invariant i == 1 ==> r == HexDigit(b[0])
      invariant i == 2 ==> r == 16 * HexDigit(b[0]) + HexDigit(b[1])
      invariant i == 3 ==> r == 256 * HexDigit(b[0]) + 16 * HexDigit(b[1]) + HexDigit(b[2])
      invariant i == 4 ==> r == Unit(b)
    {
      r := 16 * r + HexDigit(b[i]);
    }
  }

  predicate High(unit: nat) { 0xD800 <= unit <= 0xDBFF }

  predicate Low(unit: nat) { 0xDC00 <= unit <= 0xDFFF }

  // ----- well-formed text -----

  /** JSON text, cut at its escapes: backslashes occur only in two-character escapes and in \uXXXX. */
  datatype Piece = Byte(c: char) | Short(c: char) | Unicode(hex: string)

  predicate GoodPiece(p: Piece) {
    match p
    case Byte(c) => c != '\\'
    case Short(c) => c in "\\\"/bfnrt"
    case Unicode(hex) => |hex| == 4 && forall c :: c in hex ==> IsHex(c)
  }

  function Spell(p: Piece): (s: string)
    ensures |s| > 0
  {
    match p
    case Byte(c) => [c]
    case Short(c) => ['\\', c]
    case Unicode(hex) => "\\u" + hex
  }

  function Text(ps: seq<Piece>): string {
    if ps == [] then "" else Text(ps[..|ps| - 1]) + Spell(ps[|ps| - 1])
  }

  ghost predicate WellFormed(ps: seq<Piece>, data: string) {
    (forall p :: p in ps ==> GoodPiece(p)) && data == Text(ps)
  }

  predicate IsHigh(p: Piece) { p.Unicode? && |p.hex| == 4 && High(Unit(p.hex)) }

  predicate IsLow(p: Piece) { p.Unicode? && |p.hex| == 4 && Low(Unit(p.hex)) }

  /** Every surrogate escape is half of a high-low pair. */
  ghost predicate AllPaired(ps: seq<Piece>) {
    (forall i :: 0 <= i < |ps| && IsHigh(ps[i]) ==> HasLow(ps, i + 1)) &&
    forall i :: 0 <= i < |ps| && IsLow(ps[i]) ==> HasHigh(ps, i - 1)
  }

  predicate HasLow(ps: seq<Piece>, i: int) { 0 <= i < |ps| && IsLow(ps[i]) }

  predicate HasHigh(ps: seq<Piece>, i: int) { 0 <= i < |ps| && IsHigh(ps[i]) }

  // ----- where pieces begin -----

  function Offset(ps: seq<Piece>, j: nat): nat
    requires j <= |ps|
  {
    |Text(ps[..j])|
  }

  lemma {:induction false} TextConcat(a: seq<Piece>, b: seq<Piece>)
    ensures Text(a + b) == Text(a) + Text(b)
  {
    hide Spell;
    if b == [] {
      assert a + b == a;
    } else {
      var front := b[..|b| - 1];
      assert (a + b)[..|a + b| - 1] == a + front && (a + b)[|a + b| - 1] == b[|b| - 1];
      TextConcat(a, front);
      assert Text(a) + Text(front) + Spell(b[|b| - 1]) == Text(a) + (Text(front) + Spell(b[|b| - 1]));
    }
  }

  /** What stands at the beginning of piece j. */
  lemma PieceAt(ps: seq<Piece>, data: string, j: nat)
    requires WellFormed(ps, data) && j < |ps|
    ensures GoodPiece(ps[j]) && Offset(ps, j + 1) == Offset(ps, j) + |Spell(ps[j])| <= |data|
    ensures data[Offset(ps, j)..Offset(ps, j + 1)] == Spell(ps[j])
  {
    assert ps[..j + 1][..j] == ps[..j] && ps == ps[..j + 1] + ps[j + 1..];
    TextConcat(ps[..j + 1], ps[j + 1..]);
    assert Text(ps[..j + 1]) == Text(ps[..j]) + Spell(ps[j]);
  }

  lemma OffsetBound(ps: seq<Piece>, data: string, j: nat)
    requires WellFormed(ps, data) && j <= |ps|
    ensures Offset(ps, j) <= |data| && (Offset(ps, j) == |data| <==> j == |ps|) && Offset(ps, 0) == 0
  {
    assert ps == ps[..j] + ps[j..];
    TextConcat(ps[..j], ps[j..]);
    if j < |ps| { PieceAt(ps, data, j); }
    assert ps[..0] == [];
  }

  /** Every byte belongs to one piece. */
  lemma {:induction false} PieceOf(ps: seq<Piece>, data: string, p: nat, j: nat) returns (k: nat)
    requires WellFormed(ps, data) && j <= |ps| && Offset(ps, j) <= p < |data|
    ensures k < |ps| && Offset(ps, k) <= p < Offset(ps, k + 1)
    decreases |ps| - j
  {
    hide WellFormed, Offset, Text;
    OffsetBound(ps, data, j);
    PieceAt(ps, data, j);
    if p < Offset(ps, j + 1) { k := j; } else { k := PieceOf(ps, data, p, j + 1); }
  }

  lemma {:induction false} OffsetLess(ps: seq<Piece>, data: string, a: nat, b: nat)
    requires WellFormed(ps, data) && a < b <= |ps|
    ensures Offset(ps, a) < Offset(ps, b)
  {
    hide WellFormed, Offset, Text;
    PieceAt(ps, data, b - 1);
    if a < b - 1 { OffsetLess(ps, data, a, b - 1); }
  }

  // ----- a backslash after an even run of backslashes begins a piece -----

  function Run(data: string, p: nat): nat
    requires p <= |data|
  {
    if p > 0 && data[p - 1] == '\\' then 1 + Run(data, p - 1) else 0
  }

  lemma HexIsPlain(p: Piece)
    requires GoodPiece(p) && p.Unicode?
    ensures forall m :: 1 <= m < 6 ==> Spell(p)[m] != '\\'
  {
    forall m | 2 <= m < 6 ensures Spell(p)[m] != '\\' {
      assert Spell(p)[m] == p.hex[m - 2];
      assert IsHex(p.hex[m - 2]);
    }
  }

  /** Inside a piece, past its first byte, a backslash can only be the second byte of an escaped backslash. */
  lemma InsidePiece(ps: seq<Piece>, data: string, k: nat, p: nat)
    requires WellFormed(ps, data) && k < |ps| && Offset(ps, k) < p < Offset(ps, k + 1) && p < |data| && data[p] == '\\'
    ensures p == Offset(ps, k) + 1 && data[p - 1] == '\\' && ps[k] == Short('\\')
  {
    hide WellFormed, Offset, Text;
    PieceAt(ps, data, k);
    var o := Offset(ps, k);
    assert data[p] == data[o..Offset(ps, k + 1)][p - o] && data[o] == data[o..Offset(ps, k + 1)][0];
    if ps[k].Unicode? { HexIsPlain(ps[k]); }
  }

  lemma {:induction false} RunStart(ps: seq<Piece>, data: string, p: nat) returns (k: nat)
    requires WellFormed(ps, data) && p < |data| && data[p] == '\\' && Run(data, p) % 2 == 0
    ensures k < |ps| && Offset(ps, k) == p
    decreases p
  {
    hide Spell, Text, WellFormed, Offset;
    if Run(data, p) == 0 {
      OffsetBound(ps, data, 0);
      k := PieceOf(ps, data, p, 0);
      if Offset(ps, k) < p { InsidePiece(ps, data, k, p); }
    } else {
      var before := RunStart(ps, data, p - 2);
      EscapedBackslash(ps, data, before, p - 2);
      OffsetBound(ps, data, before + 1);
      k := before + 1;
    }
  }

  lemma EscapedBackslash(ps: seq<Piece>, data: string, k: nat, p: nat)
    requires WellFormed(ps, data) && k < |ps| && Offset(ps, k) == p && p + 1 < |data| && data[p] == '\\'
    requires data[p + 1] == '\\'
    ensures Offset(ps, k + 1) == p + 2
  {
    PieceAt(ps, data, k);
    var n := Offset(ps, k + 1);
    assert data[p] == data[p..n][0];
    if n > p + 1 { assert data[p + 1] == data[p..n][1]; }
  }

  /** If the six bytes before piece j look like an unescaped \\uXXXX, then that is the piece before it. */
  lemma LooksBack(ps: seq<Piece>, data: string, j: nat, i: nat)
    requires WellFormed(ps, data) && j <= |ps| && Offset(ps, j) == i && 6 <= i <= |data|
    requires data[i - 6] == '\\' && data[i - 5] == 'u' && Run(data, i - 6) % 2 == 0
    ensures j > 0 && ps[j - 1] == Unicode(data[i - 4..i])
  {
    hide Text;
    var k := RunStart(ps, data, i - 6);
    PieceAt(ps, data, k);
    var n := Offset(ps, k + 1);
    assert data[i - 6] == data[i - 6..n][0];
    if n > i - 5 { assert data[i - 5] == data[i - 6..n][1]; }
    assert ps[k].Unicode? && n == i;
    assert data[i - 4..i] == data[i - 6..i][2..];
    if k + 1 < j { OffsetLess(ps, data, k + 1, j); }
    if j < k + 1 { OffsetLess(ps, data, j, k + 1); }
  }

  // ----- the scan -----

  /** How many backslashes stand directly before p. */
  method CountSlashes(data: string, p: nat) returns (count: nat)
    requires p <= |data|
    ensures count == Run(data, p)
  {
    count := 0;
    var j := p;
    while j > 0 && data[j - 1] == '\\'
      invariant 0 <= j <= p && count + Run(data, j) == Run(data, p)
    {
      count, j := count + 1, j - 1;
    }
  }

  /** The look-back at a low surrogate: does an unescaped high surrogate stand right before it? */
  method FollowsHigh(data: string, i: nat) returns (follows: bool)
    requires i <= |data|
    ensures follows <==>
      i >= 6 && data[i - 6] == '\\' && data[i - 5] == 'u' && Run(data, i - 6) % 2 == 0 && High(Unit(data[i - 4..]))
  {
    if !(i >= 6 && data[i - 6] == '\\' && data[i - 5] == 'u') { return false; }
    var slashes := CountSlashes(data, i - 6);
    if slashes % 2 != 0 { return false; }
    var previous := ParseHex4(data[i - 4..]);
    follows := High(previous);
  }

  datatype Step = Advance(count: nat) | Accept(count: nat) | Reject

  /** One round of the loop: how far to go on. Accept is the look-back's own acceptance. */
  method ScanStep(data: string, i: nat) returns (step: Step)
    requires i < |data|
    ensures !step.Reject? ==> step.count > 0 && i + step.count <= |data|
    ensures step == StepAt(data, i)
  {
    if data[i] != '\\' || i + 1 >= |data| { return Advance(1); }
    if data[i + 1] in "\\\"/bfnrt" { return Advance(2); }
    if data[i + 1] != 'u' || i + 5 >= |data| { return Advance(1); }
    var r := ParseHex4(data[i + 2..]);
    if r < 0xD800 || r > 0xDFFF { return Advance(1); }
    if r <= 0xDBFF {
      if i + 12 > |data| || data[i + 6] != '\\' || data[i + 7] != 'u' { return Reject; }
      var next := ParseHex4(data[i + 8..]);
      if next < 0xDC00 || next > 0xDFFF { return Reject; }
      return Advance(12);
    }
    var follows := FollowsHigh(data, i);
    return if follows then Accept(1) else Reject;
  }

  /** The same round, as a function of the text. */
  function StepAt(data: string, i: nat): Step
    requires i < |data|
  {
    if data[i] != '\\' || i + 1 >= |data| then Advance(1)
    else if data[i + 1] in "\\\"/bfnrt" then Advance(2)
    else if data[i + 1] != 'u' || i + 5 >= |data| then Advance(1)
    else
      var r := Unit(data[i + 2..]);
      if High(r) then
        if i + 12 > |data| || data[i + 6] != '\\' || data[i + 7] != 'u' || !Low(Unit(data[i + 8..])) then
          Reject else Advance(12)
      else if Low(r) then
        if i >= 6 && data[i - 6] == '\\' && data[i - 5] == 'u' && Run(data, i - 6) % 2 == 0 && High(Unit(data[i - 4..]))
        then Accept(1) else Reject
      else Advance(1)
  }

  /** No backslash from a up to b. */
  ghost predicate Quiet(data: string, a: nat, b: nat) { forall p :: a <= p < b && p < |data| ==> data[p] != '\\' }

  /** The scan has read past piece j - 1, or only backslash-free bytes of it are left. */
  ghost predicate At(ps: seq<Piece>, data: string, i: nat, j: nat) {
    j <= |ps| && i <= Offset(ps, j) <= |data| && Quiet(data, i, Offset(ps, j)) && AllPaired(ps[..j])
  }

  /** Pairs stay pairs when more text follows. */
  lemma PairedLonger(a: seq<Piece>, b: seq<Piece>, i: nat)
    requires a <= b && AllPaired(a) && i < |a|
    ensures IsHigh(b[i]) ==> HasLow(b, i + 1)
    ensures IsLow(b[i]) ==> HasHigh(b, i - 1)
  {
    hide IsHigh, IsLow;
    assert a[i] == b[i];
    assert IsHigh(a[i]) ==> HasLow(a, i + 1) && a[i + 1] == b[i + 1];
    assert IsLow(a[i]) ==> HasHigh(a, i - 1) && a[i - 1] == b[i - 1];
  }

  lemma PairedSnoc(ps: seq<Piece>, j: nat)
    requires j < |ps| && AllPaired(ps[..j]) && !IsHigh(ps[j]) && !IsLow(ps[j])
    ensures AllPaired(ps[..j + 1])
  {
    hide IsHigh, IsLow, HasHigh, HasLow;
    var b := ps[..j + 1];
    forall i | 0 <= i < j + 1 ensures (IsHigh(b[i]) ==> HasLow(b, i + 1)) && (IsLow(b[i]) ==> HasHigh(b, i - 1)) {
      if i < j { PairedLonger(ps[..j], b, i); } else { assert b[i] == ps[j]; }
    }
  }

  lemma NotBoth(ps: seq<Piece>, j: nat)
    requires j < |ps|
    ensures !(IsHigh(ps[j]) && IsLow(ps[j])) && (j + 1 < |ps| ==> !(IsHigh(ps[j + 1]) && IsLow(ps[j + 1])))
  {
    hide Unit;
  }

  lemma PairedTwo(ps: seq<Piece>, j: nat)
    requires j + 1 < |ps| && AllPaired(ps[..j]) && IsHigh(ps[j]) && IsLow(ps[j + 1])
    ensures AllPaired(ps[..j + 2])
  {
    NotBoth(ps, j);
    hide IsHigh, IsLow;
    var b := ps[..j + 2];
    assert b[j] == ps[j] && b[j + 1] == ps[j + 1] && HasLow(b, j + 1) && HasHigh(b, j);
    forall i | 0 <= i < j + 2 ensures (IsHigh(b[i]) ==> HasLow(b, i + 1)) && (IsLow(b[i]) ==> HasHigh(b, i - 1)) {
      if i < j { PairedLonger(ps[..j], b, i); }
    }
  }

  /** After a paired beginning, a low surrogate or an unanswered high one cannot be paired. */
  lemma Unpaired(ps: seq<Piece>, j: nat)
    requires j < |ps| && AllPaired(ps[..j])
    requires IsLow(ps[j]) || (IsHigh(ps[j]) && !HasLow(ps, j + 1))
    ensures !AllPaired(ps) && !HasHigh(ps, j - 1)
  {
    assert !HasLow(ps[..j], j) && (j > 0 ==> ps[..j][j - 1] == ps[j - 1]);
  }

  /** Four hexadecimal digits of piece j, read from the text. */
  lemma UnitOf(ps: seq<Piece>, data: string, j: nat)
    requires WellFormed(ps, data) && j < |ps| && ps[j].Unicode?
    ensures var o := Offset(ps, j);
            |ps[j].hex| == 4 && o + 6 <= |data| && data[o] == '\\' && data[o + 1] == 'u' &&
            Unit(data[o + 2..]) == Unit(ps[j].hex)
  {
    hide WellFormed, Offset, Text, HexDigit, IsHex;
    PieceAt(ps, data, j);
    var o := Offset(ps, j);
    var piece, h := data[o..o + 6], ps[j].hex;
    assert piece == "\\u" + h && piece[0] == data[o] && piece[1] == data[o + 1];
    assert piece[2] == h[0] == data[o + 2] && piece[3] == h[1] == data[o + 3];
    assert piece[4] == h[2] == data[o + 4] && piece[5] == h[3] == data[o + 5];
  }

  lemma FirstByte(ps: seq<Piece>, data: string, j: nat)
    requires WellFormed(ps, data) && j < |ps|
    ensures GoodPiece(ps[j]) && Offset(ps, j) < |data| && Offset(ps, j + 1) == Offset(ps, j) + |Spell(ps[j])| <= |data|
    ensures data[Offset(ps, j)] == '\\' <==> !ps[j].Byte?
    ensures ps[j].Short? ==> Offset(ps, j) + 1 < |data| && data[Offset(ps, j) + 1] == ps[j].c
    ensures ps[j].Unicode? ==> Quiet(data, Offset(ps, j) + 1, Offset(ps, j + 1))
  {
    hide WellFormed, Offset, Text;
    PieceAt(ps, data, j);
    var o, n := Offset(ps, j), Offset(ps, j + 1);
    assert data[o] == data[o..n][0];
    if ps[j].Short? { assert data[o + 1] == data[o..n][1]; }
    if ps[j].Unicode? {
      HexIsPlain(ps[j]);
      forall p | o + 1 <= p < n ensures data[p] != '\\' { assert data[p] == data[o..n][p - o]; }
    }
  }

  /** A high surrogate is answered exactly when the next six bytes spell a low one. */
  lemma Answered(ps: seq<Piece>, data: string, j: nat)
    requires WellFormed(ps, data) && j < |ps| && IsHigh(ps[j])
    ensures var i := Offset(ps, j);
            HasLow(ps, j + 1) <==>
              i + 12 <= |data| && data[i + 6] == '\\' && data[i + 7] == 'u' && Low(Unit(data[i + 8..]))
    ensures HasLow(ps, j + 1) ==> Offset(ps, j + 2) == Offset(ps, j) + 12
  {
    hide Text, WellFormed, Unit, Offset;
    FirstByte(ps, data, j);
    OffsetBound(ps, data, j + 1);
    if j + 1 < |ps| {
      FirstByte(ps, data, j + 1);
      if ps[j + 1].Unicode? { UnitOf(ps, data, j + 1); }
    }
  }

  /** On well-formed text one round either advances to where all is paired so far, or rejects a text
      with an unpaired surrogate; it never gets as far as accepting by looking back. */
  lemma StepSound(ps: seq<Piece>, data: string, i: nat, j: nat) returns (k: nat)
    requires WellFormed(ps, data) && At(ps, data, i, j) && i < |data|
    ensures StepAt(data, i).Advance? ==> At(ps, data, i + StepAt(data, i).count, k)
    ensures StepAt(data, i).Reject? ==> !AllPaired(ps)
    ensures !StepAt(data, i).Accept?
  {
    hide Text, WellFormed, Unit, Offset, AllPaired, Run;
    k := j;
    if i == Offset(ps, j) {
      OffsetBound(ps, data, j);
      FirstByte(ps, data, j);
      if ps[j].Unicode? {
        k := SurrogateStep(ps, data, i, j);
      } else {
        PairedSnoc(ps, j);
        k := j + 1;
      }
    }
  }

  lemma SurrogateStep(ps: seq<Piece>, data: string, i: nat, j: nat) returns (k: nat)
    requires WellFormed(ps, data) && At(ps, data, i, j) && j < |ps| && i == Offset(ps, j) < |data| && ps[j].Unicode?
    ensures StepAt(data, i).Advance? ==> At(ps, data, i + StepAt(data, i).count, k)
    ensures StepAt(data, i).Reject? ==> !AllPaired(ps)
    ensures !StepAt(data, i).Accept?
  {
    hide Text, WellFormed, Unit, Offset, AllPaired, Run;
    UnitOf(ps, data, j);
    FirstByte(ps, data, j);
    k := j + 1;
    if IsHigh(ps[j]) {
      Answered(ps, data, j);
      if HasLow(ps, j + 1) {
        PairedTwo(ps, j);
        FirstByte(ps, data, j + 1);
        k := j + 2;
      } else {
        Unpaired(ps, j);
      }
    } else if IsLow(ps[j]) {
      Unpaired(ps, j);
      if i >= 6 && data[i - 6] == '\\' && data[i - 5] == 'u' && Run(data, i - 6) % 2 == 0 {
        LooksBack(ps, data, j, i);
        SameUnit(data, i);
      }
    } else {
      PairedSnoc(ps, j);
    }
  }

  lemma SameUnit(data: string, i: nat)
    requires 4 <= i <= |data|
    ensures Unit(data[i - 4..i]) == Unit(data[i - 4..])
  {
  }

  /** validateJSONSurrogates. It never reads past the text, whatever the text is. On well-formed JSON it
      accepts exactly when every surrogate escape is in a high-low pair, and the look-back never accepts. */
  method ValidateSurrogates(data: string, ghost ps: seq<Piece>) returns (ok: bool, ghost lookedBack: bool)
    ensures WellFormed(ps, data) ==> (ok <==> AllPaired(ps))
    ensures WellFormed(ps, data) ==> !lookedBack
  {
    hide WellFormed, AllPaired, Offset, StepAt;
    lookedBack := false;
    ghost var j := 0;
    ScanStart(ps, data);
    var i := 0;
    while i < |data|
      invariant 0 <= i <= |data|
      invariant WellFormed(ps, data) ==> At(ps, data, i, j) && !lookedBack
      decreases |data| - i
    {
      var step := ScanStep(data, i);
      if WellFormed(ps, data) { j := StepSound(ps, data, i, j); }
      if step.Reject? { return false, lookedBack; }
      lookedBack := lookedBack || step.Accept?;
      i := i + step.count;
    }
    if WellFormed(ps, data) { ScanEnd(ps, data, i, j); }
    return true, lookedBack;
  }

  lemma ScanStart(ps: seq<Piece>, data: string)
    ensures WellFormed(ps, data) ==> At(ps, data, 0, 0)
  {
    if WellFormed(ps, data) { OffsetBound(ps, data, 0); }
  }

  lemma ScanEnd(ps: seq<Piece>, data: string, i: nat, j: nat)
    requires WellFormed(ps, data) && At(ps, data, i, j) && i == |data|
    ensures AllPaired(ps)
  {
    OffsetBound(ps, data, j);
    assert ps[..|ps|] == ps;
  }
}
