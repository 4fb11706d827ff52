/** Normal forms of phones and emails (packages/core/src/identity.ts). */
module Identity {
  import opened Common

  datatype Kind = PhoneId | EmailId

  datatype Identifier = Identifier(kind: Kind, normalized: string)

  /** JavaScript's white space and line terminators: what trim() strips and \s matches. */
  predicate IsSpace(c: char) {
    || c in {'\t', '\n', '\r', ' ', '\U{000B}', '\U{000C}', '\U{00A0}', '\U{1680}', '\U{2028}', '\U{2029}',
             '\U{202F}', '\U{205F}', '\U{3000}', '\U{FEFF}'}
    || '\U{2000}' <= c <= '\U{200A}'
  }

  function TrimStart(s: string): string {
    if |s| > 0 && IsSpace(s[0]) then TrimStart(s[1..]) else s
  }

  function TrimEnd(s: string): string {
    if |s| > 0 && IsSpace(Last(s)) then TrimEnd(Front(s)) else s
  }

  function Trim(s: string): string {
    TrimEnd(TrimStart(s))
  }

  /** Lower case of the ASCII letters. */
  function LowerChar(c: char): char {
    if 'A' <= c <= 'Z' then c - 'A' + 'a' else c
  }

  function Lower(s: string): (r: string)
    ensures |r| == |s| && forall i :: 0 <= i < |s| ==> r[i] == LowerChar(s[i])
  {
    seq(|s|, i requires 0 <= i < |s| => LowerChar(s[i]))
  }

  predicate AddressChar(c: char) {
    c != '@' && !IsSpace(c)
  }

  /** The expression ^[^@\s]+@[^@\s]+\.[^@\s]+$ matches e. */
  predicate IsEmail(e: string) {
    exists at, dot | 0 <= at < |e| && 0 <= dot < |e| :: EmailShape(e, at, dot)
  }

  predicate EmailShape(e: string, at: int, dot: int) {
    && 0 < at < dot - 1 && dot < |e| - 1
    && e[at] == '@' && e[dot] == '.'
    && forall i :: 0 <= i < |e| && i != at ==> AddressChar(e[i])
  }

  function NormalizeEmail(email: string): Option<string> {
    var e := Lower(Trim(email));
    if IsEmail(e) then Some(e) else None
  }

  predicate IsDigit(c: char) {
    '0' <= c <= '9'
  }

  function Digits(s: string): (r: string)
    ensures forall i :: 0 <= i < |r| ==> IsDigit(r[i])
  {
    if |s| == 0 then ""
    else if IsDigit(Last(s)) then Digits(Front(s)) + [Last(s)]
    else Digits(Front(s))
  }

  function NormalizePhone(phone: string): Option<string> {
    var digits := Digits(phone);
    if |digits| < 7 || |digits| > 15 then None else Some("+" + digits)
  }

  /** A normalized email is its own normal form, has one @, no white space and no capital letter. */
  lemma {:induction false} EmailNormalForm(email: string)
    ensures var n := NormalizeEmail(email);
            n.Some? ==>
              && IsEmail(n.value) && NormalizeEmail(n.value) == n
              && forall c :: c in n.value ==> !IsSpace(c) && !('A' <= c <= 'Z')
  {
    var n := NormalizeEmail(email);
    if n.Some? {
      var e := n.value;
      assert forall c :: c in e ==> !IsSpace(c) by {
        var at, dot :| EmailShape(e, at, dot);
        assert !IsSpace('@');
      }
      assert e[0] in e && Last(e) in e;
      assert Trim(e) == e;
      assert Lower(e) == e;
    }
  }

  predicate AllSpace(s: string) {
    forall i :: 0 <= i < |s| ==> IsSpace(s[i])
  }

  lemma {:induction false} TrimStartSplits(s: string) returns (pre: string)
    ensures s == pre + TrimStart(s) && AllSpace(pre)
  {
    if |s| > 0 && IsSpace(s[0]) {
      pre := TrimStartSplits(s[1..]);
      pre := [s[0]] + pre;
    } else {
      pre := "";
    }
  }

  lemma {:induction false} TrimEndSplits(s: string) returns (post: string)
    ensures s == TrimEnd(s) + post && AllSpace(post)
  {
    if |s| > 0 && IsSpace(Last(s)) {
      post := TrimEndSplits(Front(s));
      post := post + [Last(s)];
    } else {
      post := "";
    }
  }

  lemma {:induction false} TrimStartOf(pre: string, s: string)
    requires AllSpace(pre) && |s| > 0 && !IsSpace(s[0])
    ensures TrimStart(pre + s) == s
  {
    if |pre| > 0 {
      assert (pre + s)[0] == pre[0] && (pre + s)[1..] == pre[1..] + s;
      TrimStartOf(pre[1..], s);
    } else {
      assert pre + s == s;
    }
  }

  lemma {:induction false} TrimEndOf(s: string, post: string)
    requires AllSpace(post) && |s| > 0 && !IsSpace(Last(s))
    ensures TrimEnd(s + post) == s
  {
    if |post| > 0 {
      assert Last(s + post) == Last(post) && Front(s + post) == s + Front(post);
      TrimEndOf(s, Front(post));
    } else {
      assert s + post == s;
    }
  }

  /** email is text between white space, and v is that text in lower case. */
  ghost predicate IsCore(email: string, pre: string, text: string, post: string, v: string) {
    && email == pre + text + post && AllSpace(pre) && AllSpace(post)
    && |text| == |v| && forall i :: 0 <= i < |text| ==> v[i] == LowerChar(text[i])
  }

  /** The parts of an address: something, "@", something, ".", something, all without "@" and white space. */
  ghost predicate IsAddress(e: string, local: string, domain: string, top: string) {
    && |local| > 0 && |domain| > 0 && |top| > 0 && e == local + "@" + domain + "." + top
    && (forall i :: 0 <= i < |local| ==> AddressChar(local[i]))
    && (forall i :: 0 <= i < |domain| ==> AddressChar(domain[i]))
    && forall i :: 0 <= i < |top| ==> AddressChar(top[i])
  }

  lemma {:induction false} AddressExact(e: string)
    ensures IsEmail(e) <==> exists local, domain, top :: IsAddress(e, local, domain, top)
  {
    if IsEmail(e) {
      var at, dot :| 0 <= at < |e| && 0 <= dot < |e| && EmailShape(e, at, dot);
      var local, domain, top := e[..at], e[at + 1..dot], e[dot + 1..];
      assert e == local + "@" + domain + "." + top;
      assert IsAddress(e, local, domain, top);
    }
    if local, domain, top :| IsAddress(e, local, domain, top) {
      AddressShape(e, local, domain, top);
    }
  }

  lemma {:induction false} AddressShape(e: string, local: string, domain: string, top: string)
    requires IsAddress(e, local, domain, top)
    ensures IsEmail(e)
  {
    var at, dot := |local|, |local| + 1 + |domain|;
    assert e[at] == '@' && e[dot] == '.';
    forall i | 0 <= i < |e| && i != at
      ensures AddressChar(e[i])
    {
      if i < at {
        assert e[i] == local[i];
      } else if i < dot {
        assert e[i] == domain[i - at - 1];
      } else if i > dot {
        assert e[i] == top[i - dot - 1];
      }
    }
    assert EmailShape(e, at, dot);
  }

  /** The normal form of an email is the lower case of its text between white space, if that is an address, else none. */
  lemma {:induction false} EmailExact(email: string, v: string)
    ensures NormalizeEmail(email) == Some(v) <==> IsEmail(v) && exists pre, text, post :: IsCore(email, pre, text, post, v)
  {
    if NormalizeEmail(email) == Some(v) {
      var pre := TrimStartSplits(email);
      var post := TrimEndSplits(TrimStart(email));
      assert email == pre + Trim(email) + post;
      assert IsCore(email, pre, Trim(email), post, v);
    }
    if IsEmail(v) {
      forall pre, text, post | IsCore(email, pre, text, post, v)
        ensures NormalizeEmail(email) == Some(v)
      {
        CoreIsTrimmed(email, pre, text, post, v);
      }
    }
  }

  lemma {:induction false} CoreIsTrimmed(email: string, pre: string, text: string, post: string, v: string)
    requires IsEmail(v) && IsCore(email, pre, text, post, v)
    ensures Trim(email) == text && Lower(text) == v
  {
    var at, dot :| 0 <= at < |v| && 0 <= dot < |v| && EmailShape(v, at, dot);
    assert AddressChar(v[0]) && AddressChar(v[|v| - 1]);
    assert !IsSpace(text[0]) && !IsSpace(Last(text));
    assert email == pre + (text + post) && (text + post)[0] == text[0];
    TrimStartOf(pre, text + post);
    TrimEndOf(text, post);
  }

  lemma {:induction false} DigitsOfDigits(s: string)
    requires forall i :: 0 <= i < |s| ==> IsDigit(s[i])
    ensures Digits(s) == s
  {
    if |s| > 0 {
      var front := Front(s);
      assert s == front + [Last(s)];
      DigitsOfDigits(front);
    }
  }

  lemma {:induction false} DigitsAfterPlus(s: string)
    ensures Digits("+" + s) == Digits(s)
  {
    if |s| == 0 {
      assert Front("+" + s) == "";
    } else {
      DigitsAfterPlus(Front(s));
      assert Front("+" + s) == "+" + Front(s);
    }
  }

  /** The normal form of a phone is "+" and its digits in order, if they are 7 to 15. */
  lemma {:induction false} PhoneExact(p: string, v: string)
    ensures NormalizePhone(p) == Some(v) <==> v == "+" + Filter(p, (c: char) => '0' <= c <= '9')
                                              && 7 <= |Filter(p, (c: char) => '0' <= c <= '9')| <= 15
  {
    DigitsAreFiltered(p);
  }

  lemma {:induction false} DigitsAreFiltered(p: string)
    ensures Digits(p) == Filter(p, (c: char) => '0' <= c <= '9')
  {
    if |p| > 0 { DigitsAreFiltered(Front(p)); }
  }

  /** A normalized phone is its own normal form, and two phones share one exactly when their digits agree. */
  lemma {:induction false} PhoneNormalForm(p: string, q: string)
    ensures var n := NormalizePhone(p);
            && (n.Some? <==> 7 <= |Digits(p)| <= 15)
            && (n.Some? ==> NormalizePhone(n.value) == n)
            && (n.Some? ==> (NormalizePhone(q) == n <==> Digits(q) == Digits(p)))
  {
    DigitsOfDigits(Digits(p));
    DigitsAfterPlus(Digits(p));
    if NormalizePhone(p).Some? && NormalizePhone(q) == NormalizePhone(p) {
      assert ("+" + Digits(p))[1..] == Digits(p) && ("+" + Digits(q))[1..] == Digits(q);
    }
  }

  // ---- All identifiers of a payload ----

  function AddIdentifier(out: seq<Identifier>, kind: Kind, n: Option<string>): seq<Identifier> {
    if n.Some? then AddNew(out, Identifier(kind, n.value)) else out
  }

  function AddPhones(out: seq<Identifier>, phones: seq<string>): seq<Identifier> {
    if |phones| == 0 then out
    else AddIdentifier(AddPhones(out, Front(phones)), PhoneId, NormalizePhone(Last(phones)))
  }

  function AddEmails(out: seq<Identifier>, emails: seq<string>): seq<Identifier> {
    if |emails| == 0 then out
    else AddIdentifier(AddEmails(out, Front(emails)), EmailId, NormalizeEmail(Last(emails)))
  }

  function Identifiers(phones: seq<string>, emails: seq<string>): seq<Identifier> {
    AddEmails(AddPhones([], phones), emails)
  }

  lemma {:induction false} PhonesCollected(out: seq<Identifier>, phones: seq<string>)
    requires Distinct(out)
    ensures Distinct(AddPhones(out, phones))
    ensures forall id :: id in AddPhones(out, phones) <==>
                         id in out || (id.kind == PhoneId && exists p :: p in phones && NormalizePhone(p) == Some(id.normalized))
  {
    if |phones| > 0 {
      PhonesCollected(out, Front(phones));
      assert phones == Front(phones) + [Last(phones)];
    }
  }

  lemma {:induction false} EmailsCollected(out: seq<Identifier>, emails: seq<string>)
    requires Distinct(out)
    ensures Distinct(AddEmails(out, emails))
    ensures forall id :: id in AddEmails(out, emails) <==>
                         id in out || (id.kind == EmailId && exists e :: e in emails && NormalizeEmail(e) == Some(id.normalized))
  {
    if |emails| > 0 {
      EmailsCollected(out, Front(emails));
      assert emails == Front(emails) + [Last(emails)];
    }
  }

  /** The identifiers are the normal forms of the usable inputs, each once. */
  lemma {:induction false} IdentifiersExact(phones: seq<string>, emails: seq<string>)
    ensures Distinct(Identifiers(phones, emails))
    ensures forall id :: id in Identifiers(phones, emails) <==>
                         || (id.kind == PhoneId && exists p :: p in phones && NormalizePhone(p) == Some(id.normalized))
                         || (id.kind == EmailId && exists e :: e in emails && NormalizeEmail(e) == Some(id.normalized))
  {
    PhonesCollected([], phones);
    EmailsCollected(AddPhones([], phones), emails);
  }

  method NormalizeIdentifiers(phones: seq<string>, emails: seq<string>) returns (out: seq<Identifier>)
    ensures out == Identifiers(phones, emails)
  {
    out := [];
    for i := 0 to |phones|
      invariant out == AddPhones([], phones[..i])
    {
      assert Front(phones[..i + 1]) == phones[..i];
      var n := NormalizePhone(phones[i]);
      if n.Some? {
        out := AddNew(out, Identifier(PhoneId, n.value));
      }
    }
    assert phones[..|phones|] == phones;
    for i := 0 to |emails|
      invariant out == AddEmails(AddPhones([], phones), emails[..i])
    {
      assert Front(emails[..i + 1]) == emails[..i];
      var n := NormalizeEmail(emails[i]);
      if n.Some? {
        out := AddNew(out, Identifier(EmailId, n.value));
      }
    }
    assert emails[..|emails|] == emails;
  }
}
