/**
 * Post lookup (app/utils.js): identifiers, their canonical text form and the
 * first-match search `findPostById`.
 */
module Utils {
  import opened Wrappers

  /** A post identifier as the manifest or the caller supplies it: a number or a string. */
  datatype Id = Num(n: int) | Str(s: string)

  /** One manifest entry. */
  datatype Post = Post(id: Id, title: string, summary: string, date: string, filename: string)

  /** The character of a decimal digit. */
  function DigitChar(d: nat): (c: char)
    requires d < 10
    ensures '0' <= c <= '9' && c as int - '0' as int == d
  {
    ('0' as int + d) as char
  }

  /** `String(n)` for an integer `n`: its decimal digits, after a '-' when negative. */
  function DecimalText(n: int): (t: string)
    ensures |t| > 0 && (t[0] == '-' <==> n < 0)
    decreases if n < 0 then 1 - n else n
  {
    if n < 0 then "-" + DecimalText(-n)
    else if n < 10 then [DigitChar(n)]
    else DecimalText(n / 10) + [DigitChar(n % 10)]
  }

  /** The decimal text of a non-negative integer is a non-empty run of digits with
      no leading zero, at least two digits long from 10 on. */
  lemma {:induction false} DecimalTextShape(n: nat)
    ensures |DecimalText(n)| >= 1
    ensures forall k :: 0 <= k < |DecimalText(n)| ==> '0' <= DecimalText(n)[k] <= '9'
    ensures DecimalText(n)[0] == '0' ==> n == 0
    ensures n >= 10 ==> |DecimalText(n)| >= 2
    decreases n
  {
    if n >= 10 {
      DecimalTextShape(n / 10);
      var r := DecimalText(n);
      assert r == DecimalText(n / 10) + [DigitChar(n % 10)];
      assert r[0] == DecimalText(n / 10)[0];
    }
  }

  /** `String(id)`: the text an identifier is compared by. */
  function Canon(id: Id): string
  {
    match id
    case Num(n) => DecimalText(n)
    case Str(s) => s
  }

  /** The predicate passed to `Array.prototype.find`: the two identifiers have the
      same text. */
  predicate Matches(p: Post, id: Id)
  {
    Canon(p.id) == Canon(id)
  }

  /** `String(id)` leaves a string as it is; a number gives a non-empty text that
      starts with '-' exactly when the number is negative. */
  lemma CanonText(id: Id)
    ensures id.Str? ==> Canon(id) == id.s
    ensures id.Num? ==> Canon(id) != "" && (Canon(id)[0] == '-' <==> id.n < 0)
  {
  }

  /** Every identifier matches itself; two numbers match exactly when they are equal,
      two strings exactly when they are equal. */
  lemma MatchesSameKind(p: Post, id: Id)
    ensures p.id == id ==> Matches(p, id)
    ensures p.id.Num? && id.Num? ==> (Matches(p, id) <==> p.id.n == id.n)
    ensures p.id.Str? && id.Str? ==> (Matches(p, id) <==> p.id.s == id.s)
  {
    if p.id.Num? && id.Num? {
      NumericIdsMatchIffEqual(p.id.n, id.n);
    }
  }

  /** `Array.prototype.find`, by index: the first position whose element satisfies `pred`. */
  function FindFirst<T>(xs: seq<T>, pred: T -> bool): (r: Option<nat>)
    ensures r.Some? ==> r.value < |xs| && pred(xs[r.value])
    ensures r.Some? ==> forall j :: 0 <= j < r.value ==> !pred(xs[j])
    ensures r.None? <==> forall j :: 0 <= j < |xs| ==> !pred(xs[j])
  {
    if xs == [] then None
    else if pred(xs[0]) then Some(0)
    else
      match FindFirst(xs[1..], pred)
      case None => None
      case Some(k) => Some(k + 1)
  }

  /** The callback `p => String(p.id) === String(id)`. */
  function MatchesId(id: Id): Post -> bool
  {
    p => Matches(p, id)
  }

  /** Index of the first post whose identifier matches `id`, if any. */
  function FindIndex(posts: seq<Post>, id: Id): (r: Option<nat>)
    ensures r.Some? ==> r.value < |posts| && Matches(posts[r.value], id)
    ensures r.Some? ==> forall j :: 0 <= j < r.value ==> !Matches(posts[j], id)
    ensures r.None? <==> forall j :: 0 <= j < |posts| ==> !Matches(posts[j], id)
  {
    FindFirst(posts, MatchesId(id))
  }

  /** `findPostById(posts, id)`: the first matching post, or absence. */
  function FindPostById(posts: seq<Post>, id: Id): (r: Option<Post>)
    ensures r.None? <==> forall j :: 0 <= j < |posts| ==> !Matches(posts[j], id)
    ensures r.Some? ==> r.value in posts && Canon(r.value.id) == Canon(id)
    ensures r.Some? ==> exists i :: 0 <= i < |posts| && posts[i] == r.value
                          && Matches(posts[i], id)
                          && forall j :: 0 <= j < i ==> !Matches(posts[j], id)
  {
    match FindIndex(posts, id)
    case None => None
    case Some(i) => Some(posts[i])
  }

  /** Two predicates that agree everywhere find the same position. */
  lemma {:induction false} FindFirstAgrees<T>(xs: seq<T>, p: T -> bool, q: T -> bool)
    requires forall x :: p(x) == q(x)
    ensures FindFirst(xs, p) == FindFirst(xs, q)
  {
    if xs != [] && !p(xs[0]) {
      FindFirstAgrees(xs[1..], p, q);
    }
  }

  /** A hit in the first part hides everything after it; with no hit there, the
      search continues into the second part, at an offset of the first part's length. */
  lemma {:induction false} FindFirstInConcat<T>(front: seq<T>, back: seq<T>, pred: T -> bool)
    ensures FindFirst(front + back, pred) ==
      match FindFirst(front, pred)
      case Some(i) => Some(i)
      case None => match FindFirst(back, pred)
                   case Some(k) => Some(|front| + k)
                   case None => None
  {
    if front == [] {
      assert front + back == back;
    } else {
      assert (front + back)[0] == front[0];
      assert (front + back)[1..] == front[1..] + back;
      if !pred(front[0]) {
        FindFirstInConcat(front[1..], back, pred);
      }
    }
  }

  /** Distinct non-negative integers never share a decimal text. */
  lemma {:induction false} DecimalTextInjective(a: nat, b: nat)
    requires DecimalText(a) == DecimalText(b)
    ensures a == b
    decreases a
  {
    DecimalTextShape(a);
    DecimalTextShape(b);
    if a >= 10 && b >= 10 {
      var ra, rb := DecimalText(a), DecimalText(b);
      assert ra[|ra| - 1] == rb[|rb| - 1];
      assert DigitChar(a % 10) == DigitChar(b % 10);
      assert ra[..|ra| - 1] == DecimalText(a / 10);
      assert rb[..|rb| - 1] == DecimalText(b / 10);
      DecimalTextInjective(a / 10, b / 10);
    } else if a < 10 && b < 10 {
      assert DecimalText(a)[0] == DigitChar(a);
    }
  }

  /** Two numeric identifiers match exactly when they are the same number. */
  lemma {:induction false} NumericIdsMatchIffEqual(a: int, b: int)
    ensures Canon(Num(a)) == Canon(Num(b)) <==> a == b
  {
    if Canon(Num(a)) == Canon(Num(b)) {
      var ta, tb := DecimalText(a), DecimalText(b);
      DecimalTextShape(if a < 0 then -a else a);
      DecimalTextShape(if b < 0 then -b else b);
      if a < 0 && b < 0 {
        assert DecimalText(-a) == ta[1..];
        assert DecimalText(-b) == tb[1..];
        DecimalTextInjective(-a, -b);
      } else if a >= 0 && b >= 0 {
        DecimalTextInjective(a, b);
      }
    }
  }

  /** The lookup depends on the query only through its canonical text:
      `Num(1)` and `Str("1")` find the same post. */
  lemma FindSeesOnlyCanon(posts: seq<Post>, a: Id, b: Id)
    requires Canon(a) == Canon(b)
    ensures FindIndex(posts, a) == FindIndex(posts, b)
    ensures FindPostById(posts, a) == FindPostById(posts, b)
  {
    FindFirstAgrees(posts, MatchesId(a), MatchesId(b));
  }

  /** A match in an earlier part of the collection hides every later entry; with no
      match there, the later part's match is found at an offset of the earlier part's length. */
  lemma FindInConcat(front: seq<Post>, back: seq<Post>, id: Id)
    ensures FindIndex(front + back, id) ==
      match FindIndex(front, id)
      case Some(i) => Some(i)
      case None => match FindIndex(back, id)
                   case Some(k) => Some(|front| + k)
                   case None => None
  {
    FindFirstInConcat(front, back, MatchesId(id));
  }

  /** The lookups of tests/utils.test.js. */
  lemma FindExamples()
    ensures var posts := [Post(Num(1), "a", "", "", ""), Post(Str("2"), "b", "", "", "")];
      FindPostById(posts, Num(1)) == Some(posts[0]) &&
      FindPostById(posts, Str("2")) == Some(posts[1]) &&
      FindPostById(posts, Str("1")) == Some(posts[0])
    ensures FindPostById([Post(Num(1), "", "", "", "")], Num(999)) == None
  {
    var posts := [Post(Num(1), "a", "", "", ""), Post(Str("2"), "b", "", "", "")];
    assert Canon(Num(1)) == "1";
    assert Canon(Num(999)) == "999";
    assert !Matches(posts[0], Str("2"));
  }
}
