/** The ids the client gives its requests: `pi-` and a decimal counter. */
module RequestIds {
  import opened Text
  import opened Protocol

  function Decimal(n: nat): (s: string)
    ensures s != [] && forall i :: 0 <= i < |s| ==> '0' <= s[i] <= '9'
  {
    var digit := ['0' + (n % 10) as char];
    if n < 10 then digit else Decimal(n / 10) + digit
  }

  function RequestName(n: nat): Id {
    "pi-" + Decimal(n)
  }

  lemma {:induction false} DecimalInjective(m: nat, n: nat)
    requires Decimal(m) == Decimal(n)
    ensures m == n
  {
    var s := Decimal(m);
    assert s[|s| - 1] == '0' + (m % 10) as char == '0' + (n % 10) as char;
    if m >= 10 && n >= 10 {
      assert s[..|s| - 1] == Decimal(m / 10) == Decimal(n / 10);
      DecimalInjective(m / 10, n / 10);
    }
  }

  lemma RequestNameInjective(m: nat, n: nat)
    requires RequestName(m) == RequestName(n)
    ensures m == n
  {
    assert RequestName(m)[3..] == Decimal(m) && RequestName(n)[3..] == Decimal(n);
    DecimalInjective(m, n);
  }

  lemma {:induction false} DecimalLength(n: nat, digits: nat, bound: nat)
    requires n < bound && bound <= Power10(digits) && digits > 0
    ensures |Decimal(n)| <= digits
  {
    if n >= 10 {
      assert Power10(1) == 10;
      assert Power10(digits) == 10 * Power10(digits - 1);
      DecimalLength(n / 10, digits - 1, Power10(digits - 1));
    }
  }

  function Power10(k: nat): nat {
    if k == 0 then 1 else 10 * Power10(k - 1)
  }

  /** Every id a session can accept fits the length the server allows. */
  lemma RequestNameFits(n: nat)
    requires n <= MAX_TRACKED_REQUEST_IDS + 1
    ensures 0 < Utf8Bytes(RequestName(n)) <= MAX_REQUEST_ID_BYTES
  {
    assert Power10(5) == 100000 by {
      assert Power10(2) == 100;
      assert Power10(4) == 10000;
    }
    DecimalLength(n, 5, Power10(5));
    Utf8BytesAscii(RequestName(n));
  }

  /** The ids of the requests numbered `from + 1` up to `to`. */
  function Names(from: nat, to: nat): (s: seq<Id>)
    requires from <= to
    ensures |s| == to - from && forall i :: 0 <= i < |s| ==> s[i] == RequestName(from + 1 + i)
  {
    seq(to - from, i requires 0 <= i < to - from => RequestName(from + 1 + i))
  }

  lemma NamesOnce(n: nat, id: Id)
    ensures multiset(Names(0, n))[id] <= 1
  {
    if n > 0 {
      NamesOnce(n - 1, id);
      assert Names(0, n) == Names(0, n - 1) + [RequestName(n)];
      if id == RequestName(n) && id in Names(0, n - 1) {
        var i :| 0 <= i < n - 1 && Names(0, n - 1)[i] == id;
        RequestNameInjective(i + 1, n);
      }
    }
  }
}
