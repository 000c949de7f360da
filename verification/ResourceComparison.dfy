/** Which of two settings is the larger one. */
module ResourceComparison {
  import opened Trees
  import opened Wrappers

  /** The library calls the comparison makes: Kubernetes quantity parsing (none on a parse error),
      Go's default formatting of a value that is not a string, and float parsing. */
  datatype Quantities = Quantities(parse: string -> Option<real>, show: Json -> string, float: string -> real)

  const PROFILE_SIZES: map<string, int> := map["small" := 1, "medium" := 2, "large" := 3]

  /** Database units such as "96MB" become the Kubernetes unit "96M". */
  function Normalize(s: string): string {
    if |s| > 2 then
      var unit := s[|s| - 2..];
      var rest := s[..|s| - 2];
      if unit == "kB" then rest + "k"
      else if unit == "MB" then rest + "M"
      else if unit == "GB" then rest + "G"
      else if unit == "TB" then rest + "T"
      else s
    else s
  }

  function Quantity(q: Quantities, s: string): Option<real> {
    q.parse(Normalize(s))
  }

  /** (larger, smaller), or none when the two strings cannot be compared. */
  function CompareStrings(q: Quantities, a: string, b: string): Option<(string, string)> {
    if a in PROFILE_SIZES then
      if b in PROFILE_SIZES then
        if PROFILE_SIZES[a] > PROFILE_SIZES[b] then Some((a, b)) else Some((b, a))
      else None
    else match (Quantity(q, a), Quantity(q, b))
      case (None, Some(_)) => Some((b, a))
      case (Some(_), None) => Some((a, b))
      case (None, None) => None
      case (Some(x), Some(y)) => if x > y then Some((a, b)) else Some((b, a))
  }

  /** (larger, smaller). Go panics when `a` is null, and when `a` is a boolean and `b` is not;
      the values given for those two cases are arbitrary. A value that is not a string is never
      formatted as a profile size, so a string and a non-string neither of which parses are
      never comparable. */
  function Compare(q: Quantities, a: Json, b: Json): (Json, Json) {
    match a
    case Str(s) =>
      if b.Str? then
        (match CompareStrings(q, s, b.s)
         case Some((large, small)) => (Str(large), Str(small))
         case None => (b, a))
      else
        (match (Quantity(q, s), Quantity(q, q.show(b)))
         case (Some(x), Some(y)) => if x > y then (a, b) else (b, a)
         case (Some(_), None) => (a, b)
         case (None, _) => (b, a))
    case Num(_) =>
      var textB := if b.Str? then b.s else q.show(b);
      (match (Quantity(q, q.show(a)), Quantity(q, textB))
       case (Some(x), Some(y)) => if x > y then (a, b) else (b, a)
       case _ => if q.float(q.show(a)) > q.float(textB) then (a, b) else (b, a))
    case Bool(x) =>
      if b.Bool? && !x && b.b then (a, b) else (b, a)
    case Null => (b, a)
    case _ => (a, a)
  }

  function Larger(q: Quantities, a: Json, b: Json): Json {
    Compare(q, a, b).0
  }

  function Smaller(q: Quantities, a: Json, b: Json): Json {
    Compare(q, a, b).1
  }

  /** The scales on which settings are ordered: quantities, profile names, and booleans. */
  datatype Scale = QuantityScale | ProfileScale | BoolScale

  /** A setting's scale and its place on it; none when it has no place on any. False outranks
      true, as in the code. */
  function Rank(q: Quantities, v: Json): Option<(Scale, real)> {
    match v
    case Str(s) =>
      if s in PROFILE_SIZES then Some((ProfileScale, PROFILE_SIZES[s] as real))
      else (match Quantity(q, s) case Some(x) => Some((QuantityScale, x)) case None => None)
    case Num(_) =>
      (match Quantity(q, q.show(v)) case Some(x) => Some((QuantityScale, x)) case None => None)
    case Bool(b) => Some((BoolScale, if b then 0.0 else 1.0))
    case _ => None
  }

  /** Two settings on the same scale. */
  predicate SameScale(q: Quantities, a: Json, b: Json) {
    Rank(q, a).Some? && Rank(q, b).Some? && Rank(q, a).value.0 == Rank(q, b).value.0
  }

  /** The comparison never invents a value. */
  lemma LargerSelects(q: Quantities, a: Json, b: Json)
    ensures Larger(q, a, b) == a || Larger(q, a, b) == b
    ensures Larger(q, a, a) == a
    ensures Larger(q, Null, b) == b
  {
  }

  /** On one scale the comparison orders by rank, and the later of two equal settings counts as
      the larger one. */
  lemma LargerIsMaximum(q: Quantities, a: Json, b: Json)
    requires SameScale(q, a, b)
    ensures Compare(q, a, b) == if Rank(q, a).value.1 > Rank(q, b).value.1 then (a, b) else (b, a)
  {
    if a.Str? && b.Str? && a.s in PROFILE_SIZES && b.s in PROFILE_SIZES {
      assert PROFILE_SIZES[a.s] > PROFILE_SIZES[b.s] <==> PROFILE_SIZES[a.s] as real > PROFILE_SIZES[b.s] as real;
    }
  }

  /** Text that is no profile name: a quantity if it parses. */
  predicate PlainText(v: Json) {
    v.Str? && v.s !in PROFILE_SIZES
  }

  /** Two settings the comparison puts in an order: they lie on one scale, or both are plain text. */
  predicate Ordered(q: Quantities, a: Json, b: Json) {
    SameScale(q, a, b) || (PlainText(a) && PlainText(b))
  }

  /** `a` comes before `b` in that order. Text that does not parse comes last. */
  predicate Outranks(q: Quantities, a: Json, b: Json) {
    Rank(q, a).Some? && (Rank(q, b).None? || Rank(q, a).value.1 > Rank(q, b).value.1)
  }

  /** The comparison follows the order, and of two settings it does not tell apart it takes the later one. */
  lemma LargerOutranks(q: Quantities, a: Json, b: Json)
    requires Ordered(q, a, b)
    ensures Larger(q, a, b) == if Outranks(q, a, b) then a else b
  {
    if SameScale(q, a, b) {
      LargerIsMaximum(q, a, b);
    }
  }

  /** What a value counts as when it is compared as a quantity: its own text, or the text it is formatted as. */
  function QuantityOf(q: Quantities, v: Json): Option<real> {
    Quantity(q, TextOf(q, v))
  }

  function TextOf(q: Quantities, v: Json): string {
    if v.Str? then v.s else q.show(v)
  }

  predicate IsProfile(v: Json) {
    v.Str? && v.s in PROFILE_SIZES
  }

  /** The first setting, which is the default, is kept against the second one, which is the user's. */
  predicate Kept(q: Quantities, a: Json, b: Json) {
    var x, y := QuantityOf(q, a), QuantityOf(q, b);
    if IsProfile(a) && b.Str? then IsProfile(b) && PROFILE_SIZES[a.s] > PROFILE_SIZES[b.s]
    else if a.Str? then x.Some? && (y.None? || x.value > y.value)
    else if a.Num? then
      if x.Some? && y.Some? then x.value > y.value else q.float(TextOf(q, a)) > q.float(TextOf(q, b))
    else a == Bool(false) && b == Bool(true)
  }

  /** Of any two values the comparison tells the larger from the smaller, on one scale or across scales: a default is
      kept only for a reason, and without one the user's value counts. */
  lemma KeptExactly(q: Quantities, a: Json, b: Json)
    requires a.Str? || a.Num? || a.Bool? || a.Null?
    ensures Compare(q, a, b) == if Kept(q, a, b) then (a, b) else (b, a)
  {
  }

  /** The profile names are small, medium and large, in this order; no other text is one. */
  lemma ProfileOrder(q: Quantities, s: string)
    ensures IsProfile(Str(s)) <==> s == "small" || s == "medium" || s == "large"
    ensures Compare(q, Str("small"), Str("medium")) == (Str("medium"), Str("small"))
    ensures Compare(q, Str("medium"), Str("small")) == (Str("medium"), Str("small"))
    ensures Compare(q, Str("medium"), Str("large")) == (Str("large"), Str("medium"))
    ensures Compare(q, Str("large"), Str("medium")) == (Str("large"), Str("medium"))
    ensures Compare(q, Str("small"), Str("large")) == (Str("large"), Str("small"))
    ensures Compare(q, Str("large"), Str("small")) == (Str("large"), Str("small"))
  {
  }

  /** A size as a database writes it: a text and one of four units. */
  datatype DatabaseSize = DatabaseSize(text: string, unit: DatabaseUnit)
  {
    function Written(): string {
      text + match unit case KB => "kB" case MB => "MB" case GB => "GB" case TB => "TB"
    }

    /** The same size as Kubernetes writes it. */
    function Quantity(): string {
      text + match unit case KB => "k" case MB => "M" case GB => "G" case TB => "T"
    }
  }

  datatype DatabaseUnit = KB | MB | GB | TB

  /** A size in a database unit counts as the same size in the Kubernetes unit. */
  lemma DatabaseUnits(q: Quantities, n: string)
    requires n != ""
    ensures Quantity(q, n + "kB") == q.parse(n + "k") && Quantity(q, n + "MB") == q.parse(n + "M")
    ensures Quantity(q, n + "GB") == q.parse(n + "G") && Quantity(q, n + "TB") == q.parse(n + "T")
  {
    EndsIn(n, "kB");
    EndsIn(n, "MB");
    EndsIn(n, "GB");
    EndsIn(n, "TB");
  }

  lemma EndsIn(n: string, unit: string)
    requires |unit| == 2
    ensures var s := n + unit; s[|s| - 2..] == unit && s[..|s| - 2] == n
  {
  }

  /** Any other text counts as it is. */
  lemma OtherTexts(q: Quantities, s: string)
    requires forall size: DatabaseSize :: size.text != "" ==> s != size.Written()
    ensures Quantity(q, s) == q.parse(s)
  {
    if |s| > 2 {
      var text := s[..|s| - 2];
      assert forall unit :: s != DatabaseSize(text, unit).Written();
      assert s == text + s[|s| - 2..];
      assert s != DatabaseSize(text, KB).Written() && s != DatabaseSize(text, MB).Written();
      assert s != DatabaseSize(text, GB).Written() && s != DatabaseSize(text, TB).Written();
    }
  }

  lemma SizeCounts(q: Quantities, size: DatabaseSize)
    requires size.text != ""
    ensures Quantity(q, size.Written()) == q.parse(size.Quantity()) && !IsProfile(Str(size.Written()))
  {
    DatabaseUnits(q, size.text);
    EndsInB(size);
    NoProfile(size.Written());
  }

  lemma EndsInB(size: DatabaseSize)
    ensures var s := size.Written(); s != "" && s[|s| - 1] == 'B'
  {
  }

  lemma NoProfile(s: string)
    requires s != "" && s[|s| - 1] == 'B'
    ensures !IsProfile(Str(s))
  {
  }

  /** Of two sizes in database units the one that is the larger Kubernetes quantity is chosen, and a tie goes to
      the second. */
  lemma LargerDatabaseSize(q: Quantities, a: DatabaseSize, b: DatabaseSize)
    requires a.text != "" && b.text != "" && q.parse(a.Quantity()).Some? && q.parse(b.Quantity()).Some?
    ensures Larger(q, Str(a.Written()), Str(b.Written())) ==
            if q.parse(a.Quantity()).value > q.parse(b.Quantity()).value then Str(a.Written()) else Str(b.Written())
  {
    SizeCounts(q, a);
    SizeCounts(q, b);
    LargerQuantity(q, a.Written(), b.Written());
  }

  lemma LargerQuantity(q: Quantities, s: string, t: string)
    requires !IsProfile(Str(s)) && !IsProfile(Str(t)) && Quantity(q, s).Some? && Quantity(q, t).Some?
    ensures Larger(q, Str(s), Str(t)) == if Quantity(q, s).value > Quantity(q, t).value then Str(s) else Str(t)
  {
  }
}
