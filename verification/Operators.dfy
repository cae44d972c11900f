// The built-in binary operators (get_builtin_binary_op_fn in src/func/builtin.rs), which the
// interpreter uses and the optimizer folds with.  Their laws relate each operator to the others.

module Operators {
  import opened Ast

  const MIN_INT: int := -0x8000_0000_0000_0000
  const MAX_INT: int := 0x7fff_ffff_ffff_ffff

  datatype OpResult = NoBuiltin | OpError | OpValue(v: Val)

  predicate IsInt64(n: int) {
    MIN_INT <= n <= MAX_INT
  }

  function Checked(n: int): OpResult {
    if IsInt64(n) then OpValue(IntV(n)) else OpError
  }

  function Magnitude(n: int): nat {
    if n >= 0 then n else -n
  }

  // Division rounds toward zero.
  function TruncDiv(a: int, b: int): int
    requires b != 0
  {
    var q := Magnitude(a) / Magnitude(b);
    if (a >= 0) == (b > 0) then q else -q
  }

  function Power(a: int, n: nat): int {
    if n == 0 then 1 else Power(a, n - 1) * a
  }

  const MAX_EXPONENT: int := 0xffff_ffff

  function IntOp(f: string, a: int, b: int): (r: OpResult)
    ensures r.OpValue? ==> r.v.IntV? || r.v.BoolV?
  {
    match f
    case "+" => Checked(a + b)
    case "-" => Checked(a - b)
    case "*" => Checked(a * b)
    case "/" => if b == 0 then OpError else Checked(TruncDiv(a, b))
    case "%" => if b == 0 || (a == MIN_INT && b == -1) then OpError else Checked(a - b * TruncDiv(a, b))
    case "**" => if b < 0 || b > MAX_EXPONENT then OpError else Checked(Power(a, b))
    case "==" => OpValue(BoolV(a == b))
    case "!=" => OpValue(BoolV(a != b))
    case "<" => OpValue(BoolV(a < b))
    case "<=" => OpValue(BoolV(a <= b))
    case ">" => OpValue(BoolV(a > b))
    case ">=" => OpValue(BoolV(a >= b))
    case _ => NoBuiltin
  }

  // `false` comes before `true`.
  function BoolOp(f: string, a: bool, b: bool): (r: OpResult)
    ensures r.OpValue? ==> r.v.BoolV?
  {
    match f
    case "==" => OpValue(BoolV(a == b))
    case "!=" => OpValue(BoolV(a != b))
    case "<" => OpValue(BoolV(!a && b))
    case "<=" => OpValue(BoolV(!a || b))
    case ">" => OpValue(BoolV(a && !b))
    case ">=" => OpValue(BoolV(a || !b))
    case "&" => OpValue(BoolV(a && b))
    case "|" => OpValue(BoolV(a || b))
    case "^" => OpValue(BoolV(a != b))
    case _ => NoBuiltin
  }

  predicate Before(s: string, t: string) {
    t != [] && (s == [] || s[0] < t[0] || (s[0] == t[0] && Before(s[1..], t[1..])))
  }

  function StrOp(f: string, a: string, b: string): (r: OpResult)
    ensures r.OpValue? ==> r.v.StrV? || r.v.BoolV?
  {
    match f
    case "+" => OpValue(StrV(a + b))
    case "==" => OpValue(BoolV(a == b))
    case "!=" => OpValue(BoolV(a != b))
    case "<" => OpValue(BoolV(Before(a, b)))
    case "<=" => OpValue(BoolV(!Before(b, a)))
    case ">" => OpValue(BoolV(Before(b, a)))
    case ">=" => OpValue(BoolV(!Before(a, b)))
    case _ => NoBuiltin
  }

  predicate IsComparison(f: string) {
    f in {"==", "!=", "<", "<=", ">", ">="}
  }

  function BuiltinBinary(f: string, x: Val, y: Val): (r: OpResult)
    ensures r.OpValue? ==> r.v != UnitV
  {
    match (x, y)
    case (IntV(a), IntV(b)) => IntOp(f, a, b)
    case (BoolV(a), BoolV(b)) => BoolOp(f, a, b)
    case (StrV(a), StrV(b)) => StrOp(f, a, b)
    case (UnitV, UnitV) => if IsComparison(f) then OpValue(BoolV(f == "==")) else NoBuiltin
    case (ArrV(_), ArrV(_)) => NoBuiltin
    case _ =>
      // values of different types
      if IsComparison(f) then OpValue(BoolV(f == "!="))
      else if f == "+" && x.StrV? && y == UnitV then OpValue(x)
      else if f == "+" && x == UnitV && y.StrV? then OpValue(y)
      else NoBuiltin
  }

  // ---- laws ----

  function Ints(f: string, a: int, b: int): OpResult {
    BuiltinBinary(f, IntV(a), IntV(b))
  }

  function Result(n: int): OpResult {
    OpValue(IntV(n))
  }

  // Adding 0 changes nothing, one more on the right is one more in the sum, and a sum that has left
  // the range does not come back: from 0, up and down, this is every sum.
  lemma SumLaws(a: int, b: int)
    requires IsInt64(a) && IsInt64(b)
    ensures Ints("+", a, 0) == Result(a)
    ensures Ints("+", a, b) == Ints("+", b, a)
    ensures Ints("+", a, b) == OpError || exists c :: IsInt64(c) && Ints("+", a, b) == Result(c)
    ensures forall c | IsInt64(c) && Ints("+", a, b) == Result(c) ::
      && (IsInt64(b + 1) ==> Ints("+", a, b + 1) == if c == MAX_INT then OpError else Result(c + 1))
      && (IsInt64(b - 1) ==> Ints("+", a, b - 1) == if c == MIN_INT then OpError else Result(c - 1))
    ensures Ints("+", a, b) == OpError && b > 0 && IsInt64(b + 1) ==> Ints("+", a, b + 1) == OpError
    ensures Ints("+", a, b) == OpError && b < 0 && IsInt64(b - 1) ==> Ints("+", a, b - 1) == OpError
  {
    if Ints("+", a, b) != OpError { assert IsInt64(a + b); }
  }

  // A difference is what must be added to the right operand to give the left one.
  lemma DifferenceLaw(a: int, b: int, c: int)
    requires IsInt64(a) && IsInt64(b) && IsInt64(c)
    ensures Ints("-", a, b) == Result(c) <==> Ints("+", c, b) == Result(a)
    ensures Ints("-", a, b) == OpError ==> Ints("+", c, b) != Result(a)
    ensures Ints("-", a, b) == OpError || exists d :: IsInt64(d) && Ints("-", a, b) == Result(d)
  {
    if Ints("-", a, b) != OpError { assert IsInt64(a - b); }
  }

  lemma NextProduct(a: int, b: int)
    ensures a * (b + 1) == a * b + a && a * (b - 1) == a * b - a
  {
  }

  lemma FarProduct(a: int, b: int)
    requires !IsInt64(a * b)
    ensures b > 0 ==> !IsInt64(a * (b + 1))
    ensures b < 0 ==> !IsInt64(a * (b - 1))
  {
    NextProduct(a, b);
    Signs(a, b);
  }

  lemma Signs(a: int, b: int)
    ensures a == 0 || b == 0 ==> a * b == 0
    ensures (a > 0 && b > 0) || (a < 0 && b < 0) ==> a * b > 0
    ensures (a > 0 && b < 0) || (a < 0 && b > 0) ==> a * b < 0
  {
  }

  lemma Negated(a: int, b: int)
    ensures (-a) * b == -(a * b) && a * (-b) == -(a * b) && (-a) * (-b) == a * b
  {
  }

  lemma MagnitudeProduct(a: int, b: int)
    ensures Magnitude(a * b) == Magnitude(a) * Magnitude(b)
  {
    Negated(a, b);
    Signs(a, b);
  }

  lemma {:induction false} AtLeast(m: nat, n: nat)
    requires n > 0
    ensures m * n >= m
  {
    if n > 1 {
      AtLeast(m, n - 1);
      NextProduct(m, n - 1);
    }
  }

  // Nothing times 0 is left, and one more on the right adds the left operand once more.
  lemma ProductLaws(a: int, b: int)
    requires IsInt64(a) && IsInt64(b)
    ensures Ints("*", a, 0) == Result(0)
    ensures Ints("*", a, b) == OpError || exists c :: IsInt64(c) && Ints("*", a, b) == Result(c)
    ensures forall c | IsInt64(c) && Ints("*", a, b) == Result(c) ::
      && (IsInt64(b + 1) ==> Ints("*", a, b + 1) == Ints("+", c, a))
      && (IsInt64(b - 1) ==> Ints("*", a, b - 1) == Ints("-", c, a))
    ensures Ints("*", a, b) == OpError && b > 0 && IsInt64(b + 1) ==> Ints("*", a, b + 1) == OpError
    ensures Ints("*", a, b) == OpError && b < 0 && IsInt64(b - 1) ==> Ints("*", a, b - 1) == OpError
  {
    NextProduct(a, b);
    if Ints("*", a, b) == OpError {
      FarProduct(a, b);
    } else {
      assert IsInt64(a * b);
    }
  }

  // Quotient and remainder give the dividend back; the remainder is smaller than the divisor and has
  // the sign of the dividend.  Both fail exactly on 0 and where the quotient leaves the range.
  lemma DivisionLaws(a: int, b: int)
    requires IsInt64(a) && IsInt64(b)
    ensures Ints("/", a, b) == OpError <==> b == 0 || (a == MIN_INT && b == -1)
    ensures Ints("%", a, b) == OpError <==> b == 0 || (a == MIN_INT && b == -1)
    ensures Ints("/", a, b) != OpError ==> exists q, r ::
      Ints("/", a, b) == Result(q) && Ints("%", a, b) == Result(r) && Divides(a, b, q, r)
  {
    if b != 0 {
      TruncDivides(a, b);
      var q := TruncDiv(a, b);
      if !(a == MIN_INT && b == -1) {
        QuotientFits(a, b);
        assert Ints("/", a, b) == Result(q) && Ints("%", a, b) == Result(a - b * q);
      } else {
        assert q == -MIN_INT;
      }
    }
  }

  predicate Divides(a: int, b: int, q: int, r: int) {
    a == b * q + r && Magnitude(r) < Magnitude(b) && (r > 0 ==> a > 0) && (r < 0 ==> a < 0)
  }

  lemma TruncDivides(a: int, b: int)
    requires b != 0
    ensures Divides(a, b, TruncDiv(a, b), a - b * TruncDiv(a, b))
    ensures Magnitude(TruncDiv(a, b)) == Magnitude(a) / Magnitude(b)
  {
    var m, n := Magnitude(a), Magnitude(b);
    Remainder(m, n);
    Negated(n, m / n);
  }

  lemma Remainder(m: nat, n: nat)
    requires n > 0
    ensures m == n * (m / n) + m % n && 0 <= m % n < n && 0 <= m / n <= m
    ensures n >= 2 ==> 2 * (m / n) <= m
  {
    var k := m / n;
    AtLeast(k, n);
    if n >= 2 {
      AtLeast(k, n - 1);
      NextProduct(k, n - 1);
    }
    Swapped(n, k);
  }

  lemma Swapped(a: int, b: int)
    ensures a * b == b * a
  {
  }

  lemma QuotientFits(a: int, b: int)
    requires IsInt64(a) && IsInt64(b) && b != 0 && !(a == MIN_INT && b == -1)
    ensures IsInt64(TruncDiv(a, b)) && IsInt64(a - b * TruncDiv(a, b))
  {
    TruncDivides(a, b);
    Remainder(Magnitude(a), Magnitude(b));
    if Magnitude(b) == 1 { assert Magnitude(a) / Magnitude(b) == Magnitude(a); }
  }

  // There is only one such pair.
  lemma DividesOnce(a: int, b: int, q: int, r: int, q': int, r': int)
    requires b != 0 && Divides(a, b, q, r) && Divides(a, b, q', r')
    ensures q == q' && r == r'
  {
    Difference(b, q, q');
    if q != q' { Spread(b, q - q'); }
  }

  lemma Difference(b: int, q: int, q': int)
    ensures b * (q - q') == b * q - b * q'
  {
  }

  lemma Spread(b: int, d: int)
    requires d != 0
    ensures Magnitude(b * d) >= Magnitude(b)
  {
    MagnitudeProduct(b, d);
    AtLeast(Magnitude(b), Magnitude(d));
  }

  // A power is 1 multiplied as often as the exponent says.
  lemma PowerLaws(a: int, n: int)
    requires IsInt64(a) && 0 <= n < MAX_EXPONENT
    ensures Ints("**", a, 0) == Result(1)
    ensures forall c | IsInt64(c) && Ints("**", a, n) == Result(c) :: Ints("**", a, n + 1) == Ints("*", c, a)
    ensures Ints("**", a, n) == OpError ==> Ints("**", a, n + 1) == OpError
    ensures forall m | m < 0 || m > MAX_EXPONENT :: Ints("**", a, m) == OpError
    ensures Ints("**", a, n) == OpError || exists c :: IsInt64(c) && Ints("**", a, n) == Result(c)
  {
    assert Power(a, n + 1) == Power(a, n) * a;
    if Ints("**", a, n) == OpError {
      BigPower(a, n);
    } else {
      assert IsInt64(Power(a, n));
    }
  }

  // Once out of range, the powers of a number stay out.
  lemma BigPower(a: int, n: nat)
    requires !IsInt64(Power(a, n))
    ensures !IsInt64(Power(a, n) * a)
  {
    if Magnitude(a) <= 1 {
      UnitPower(a, n);
    } else {
      var p := Power(a, n);
      MagnitudeProduct(p, a);
      AtLeast(Magnitude(p), Magnitude(a) - 1);
      NextProduct(Magnitude(p), Magnitude(a) - 1);
    }
  }

  lemma {:induction false} UnitPower(a: int, n: nat)
    requires Magnitude(a) <= 1
    ensures Magnitude(Power(a, n)) <= 1
  {
    if n > 0 { UnitPower(a, n - 1); }
  }

  // ---- comparisons ----

  // The answer of a comparison of two values of one type.
  predicate Holds(f: string, x: Val, y: Val) {
    BuiltinBinary(f, x, y) == OpValue(BoolV(true))
  }

  predicate Ordered(x: Val, y: Val) {
    (x.IntV? && y.IntV?) || (x.BoolV? && y.BoolV?) || (x.StrV? && y.StrV?)
  }

  lemma {:induction false} BeforeOrder(s: string, t: string)
    ensures !(Before(s, t) && Before(t, s))
    ensures Before(s, t) || Before(t, s) || s == t
    ensures s == t ==> !Before(s, t)
  {
    if s != [] && t != [] {
      BeforeOrder(s[1..], t[1..]);
      if s[0] == t[0] && s[1..] == t[1..] {
        assert s == [s[0]] + s[1..] && t == [t[0]] + t[1..];
      }
    }
  }

  lemma {:induction false} BeforeTrans(s: string, t: string, u: string)
    requires Before(s, t) && Before(t, u)
    ensures Before(s, u)
  {
    if s != [] && s[0] == t[0] == u[0] { BeforeTrans(s[1..], t[1..], u[1..]); }
  }

  // Of integers, of booleans and of strings, one is less, or both are equal, or one is greater; the
  // other comparisons are the opposites of these; equal values are the same.
  lemma OrderLaws(x: Val, y: Val)
    requires Ordered(x, y)
    ensures forall f | IsComparison(f) :: BuiltinBinary(f, x, y).OpValue? && BuiltinBinary(f, x, y).v.BoolV?
    ensures Holds("==", x, y) <==> x == y
    ensures Holds("<", x, y) <==> Holds(">", y, x)
    ensures if Holds("<", x, y) then !Holds("==", x, y) && !Holds(">", x, y) else Holds("==", x, y) != Holds(">", x, y)
    ensures Holds("<=", x, y) <==> !Holds(">", x, y)
    ensures Holds(">=", x, y) <==> !Holds("<", x, y)
    ensures Holds("!=", x, y) <==> !Holds("==", x, y)
  {
    if x.StrV? { BeforeOrder(x.s, y.s); }
  }

  lemma OrderTrans(x: Val, y: Val, z: Val)
    requires Ordered(x, y) && Ordered(y, z) && Holds("<", x, y) && Holds("<", y, z)
    ensures Holds("<", x, z)
  {
    if x.StrV? { BeforeTrans(x.s, y.s, z.s); }
  }

  // Where the orders start: each integer is below the next, `false` below `true`, the empty string
  // below all others; strings are ordered by their first character and then by the rest.
  lemma OrderSteps(n: int, c: char, d: char, s: string, t: string)
    ensures Holds("<", IntV(n), IntV(n + 1)) && Holds("<", BoolV(false), BoolV(true))
    ensures Holds("<", StrV(""), StrV([c] + s))
    ensures c < d ==> Holds("<", StrV([c] + s), StrV([d] + t))
    ensures Holds("<", StrV([c] + s), StrV([c] + t)) <==> Holds("<", StrV(s), StrV(t))
  {
    assert ([c] + s)[1..] == s && ([c] + t)[1..] == t && ([d] + t)[1..] == t;
  }

  // Values of different types are never equal and never ordered; () is equal to itself.
  lemma MixedLaws(f: string, x: Val, y: Val)
    requires IsComparison(f) && !Ordered(x, y) && !(x.ArrV? && y.ArrV?)
    ensures BuiltinBinary(f, x, y) == OpValue(BoolV(if x == UnitV && y == UnitV then f == "==" else f == "!="))
  {
  }

  // Everything else is left to the functions the host registers.
  lemma OnlyBuiltin(f: string, x: Val, y: Val)
    requires BuiltinBinary(f, x, y) != NoBuiltin && !IsComparison(f)
    ensures (x.IntV? && y.IntV? && f in {"+", "-", "*", "/", "%", "**"})
         || (x.BoolV? && y.BoolV? && f in {"&", "|", "^"})
         || (f == "+" && ((x.StrV? && (y.StrV? || y == UnitV)) || (x == UnitV && y.StrV?)))
  {
  }

  // ---- booleans and strings ----

  lemma LogicLaws(b: bool)
    ensures BuiltinBinary("&", BoolV(true), BoolV(b)) == BuiltinBinary("|", BoolV(false), BoolV(b))
         == BuiltinBinary("^", BoolV(false), BoolV(b)) == OpValue(BoolV(b))
    ensures BuiltinBinary("&", BoolV(false), BoolV(b)) == OpValue(BoolV(false))
    ensures BuiltinBinary("|", BoolV(true), BoolV(b)) == OpValue(BoolV(true))
    ensures BuiltinBinary("^", BoolV(true), BoolV(b)) == OpValue(BoolV(!b))
  {
  }

  // Two strings put together begin with the one, end with the other, and hold nothing else.
  lemma JoinLaws(s: string, t: string)
    ensures var r := BuiltinBinary("+", StrV(s), StrV(t));
      r.OpValue? && r.v.StrV? && |r.v.s| == |s| + |t| && r.v.s[..|s|] == s && r.v.s[|s|..] == t
    ensures BuiltinBinary("+", StrV(s), UnitV) == BuiltinBinary("+", UnitV, StrV(s)) == OpValue(StrV(s))
  {
  }
}
