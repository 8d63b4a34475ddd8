/** The `extract_sender_info` routine shared, line for line, by both back ends: it reads the
    `From` headers of a message (the mailbox form `Name <address>` of RFC 5322 section 3.4) and
    falls back to an "at Somebody" phrase of the snippet when no display name was found. */
module Sender {
  import opened Wrappers
  import opened Text
  import opened Seqs

  /** One entry of the message's header list. */
  datatype Header = Header(name: string, value: string)

  /** Header names are compared after lower-casing. */
  predicate IsFrom(h: Header)
  {
    Lower(h.name) == "from"
  }

  /** Only a value holding both angle brackets is split into a name and an address. */
  predicate Bracketed(v: string)
  {
    '<' in v && '>' in v
  }

  /** The text before the first `<`, stripped. */
  function NamePart(v: string): string
  {
    Strip(BeforeFirst(v, '<'))
  }

  /** The piece after the first `<` (up to any later `<`), with every `>` removed, stripped. */
  function AddressPart(v: string): string
  {
    Strip(RemoveChar(BeforeFirst(AfterFirst(v, '<'), '<'), '>'))
  }

  /** The address a `From` value yields: the bracketed piece, or else the whole stripped value. */
  function EmailOf(v: string): string
  {
    if Bracketed(v) then AddressPart(v) else Strip(v)
  }

  /** The display name left by the header loop: every bracketed `From` header overwrites it. */
  function HeaderName(hs: seq<Header>): Option<string>
  {
    if hs == [] then None
    else
      var h := hs[|hs| - 1];
      if IsFrom(h) && Bracketed(h.value) then Some(NamePart(h.value)) else HeaderName(hs[..|hs| - 1])
  }

  /** The address left by the header loop: every `From` header overwrites it. */
  function HeaderEmail(hs: seq<Header>): Option<string>
  {
    if hs == [] then None
    else
      var h := hs[|hs| - 1];
      if IsFrom(h) then Some(EmailOf(h.value)) else HeaderEmail(hs[..|hs| - 1])
  }

  /** The name and address the routine returns. `atName` stands for the regular-expression
      search of the snippet for "at" followed by capitalised words; it yields the captured words. */
  function SenderInfo(hs: seq<Header>, snippet: string, atName: string -> Option<string>): (Option<string>, Option<string>)
  {
    var name := HeaderName(hs);
    if name.Some? then (name, HeaderEmail(hs))
    else if atName(snippet).Some? then (Some(Strip(atName(snippet).value)), HeaderEmail(hs))
    else (None, HeaderEmail(hs))
  }

  /** The header loop followed by the snippet fallback, as the routine performs them. */
  method ExtractSenderInfo(headers: seq<Header>, snippet: string, atName: string -> Option<string>)
    returns (name: Option<string>, email: Option<string>)
    ensures (name, email) == SenderInfo(headers, snippet, atName)
  {
    name, email := None, None;
    var i := 0;
    while i < |headers|
      invariant 0 <= i <= |headers|
      invariant name == HeaderName(headers[..i])
      invariant email == HeaderEmail(headers[..i])
    {
      var header := headers[i];
      assert headers[..i + 1][..i] == headers[..i];
      if Lower(header.name) == "from" {
        var info := header.value;
        if '<' in info && '>' in info {
          name := Some(Strip(BeforeFirst(info, '<')));
          email := Some(Strip(RemoveChar(BeforeFirst(AfterFirst(info, '<'), '<'), '>')));
        } else {
          email := Some(Strip(info));
        }
      }
      i := i + 1;
    }
    assert headers[..i] == headers;
    if name.None? {
      var atMatch := atName(snippet);
      if atMatch.Some? {
        name := Some(Strip(atMatch.value));
      }
    }
  }

  /** The address comes from the last `From` header. */
  lemma {:induction false} LastFromSetsEmail(hs: seq<Header>, i: int)
    requires 0 <= i < |hs| && IsFrom(hs[i])
    requires forall j :: i < j < |hs| ==> !IsFrom(hs[j])
    ensures HeaderEmail(hs) == Some(EmailOf(hs[i].value))
  {
    var n := |hs| - 1;
    if i == n {
      assert IsFrom(hs[n]);
    } else {
      var init := hs[..n];
      assert forall j :: 0 <= j < n ==> init[j] == hs[j];
      assert !IsFrom(hs[n]);
      assert HeaderEmail(hs) == HeaderEmail(init);
      LastFromSetsEmail(init, i);
    }
  }

  /** The address stays missing exactly when no header is a `From` header. */
  lemma {:induction false} NoFromNoEmail(hs: seq<Header>)
    ensures HeaderEmail(hs).None? <==> forall i :: 0 <= i < |hs| ==> !IsFrom(hs[i])
  {
    if hs != [] {
      var n := |hs| - 1;
      var init := hs[..n];
      assert forall j :: 0 <= j < n ==> init[j] == hs[j];
      NoFromNoEmail(init);
    }
  }

  /** The name comes from the last bracketed `From` header, whatever unbracketed ones follow. */
  lemma {:induction false} LastBracketedSetsName(hs: seq<Header>, i: int)
    requires 0 <= i < |hs| && IsFrom(hs[i]) && Bracketed(hs[i].value)
    requires forall j :: i < j < |hs| ==> !(IsFrom(hs[j]) && Bracketed(hs[j].value))
    ensures HeaderName(hs) == Some(NamePart(hs[i].value))
  {
    var n := |hs| - 1;
    if i == n {
      assert IsFrom(hs[n]) && Bracketed(hs[n].value);
    } else {
      var init := hs[..n];
      assert forall j :: 0 <= j < n ==> init[j] == hs[j];
      assert !(IsFrom(hs[n]) && Bracketed(hs[n].value));
      assert HeaderName(hs) == HeaderName(init);
      LastBracketedSetsName(init, i);
    }
  }

  /** The headers leave the name missing exactly when no `From` header is bracketed. */
  lemma {:induction false} NoBracketedNoName(hs: seq<Header>)
    ensures HeaderName(hs).None? <==> forall i :: 0 <= i < |hs| ==> !(IsFrom(hs[i]) && Bracketed(hs[i].value))
  {
    if hs != [] {
      var n := |hs| - 1;
      var init := hs[..n];
      assert forall j :: 0 <= j < n ==> init[j] == hs[j];
      NoBracketedNoName(init);
    }
  }

  /** A bracketed value splits around its first `<`: the name holds no `<`, the address holds
      neither bracket, and both are free of surrounding whitespace. */
  lemma BracketedSplit(v: string)
    requires Bracketed(v)
    ensures v == BeforeFirst(v, '<') + "<" + AfterFirst(v, '<')
    ensures '<' !in NamePart(v) && '<' !in EmailOf(v) && '>' !in EmailOf(v)
    ensures NamePart(v) != [] ==> !IsSpace(NamePart(v)[0]) && !IsSpace(NamePart(v)[|NamePart(v)| - 1])
    ensures EmailOf(v) != [] ==> !IsSpace(EmailOf(v)[0]) && !IsSpace(EmailOf(v)[|EmailOf(v)| - 1])
  {
    SplitAtFirst(v, '<');
    StripKeepsAbsent(BeforeFirst(v, '<'), '<');
    AddressClean(BeforeFirst(AfterFirst(v, '<'), '<'));
  }

  /** The address piece: removing `>` from a text free of `<` leaves neither bracket. */
  lemma AddressClean(cut: string)
    requires '<' !in cut
    ensures '<' !in Strip(RemoveChar(cut, '>')) && '>' !in Strip(RemoveChar(cut, '>'))
  {
    var removed := RemoveChar(cut, '>');
    assert '<' !in removed by {
      forall k | 0 <= k < |removed| ensures removed[k] != '<' {
        FilterMember(NotChar('>'), cut, removed[k]);
      }
    }
    StripKeepsAbsent(removed, '<');
    StripKeepsAbsent(removed, '>');
  }

  /** A `From` value without both brackets sets only the address, to the whole stripped value,
      and leaves the name as earlier headers set it. */
  lemma UnbracketedKeepsName(hs: seq<Header>, h: Header)
    requires IsFrom(h) && !Bracketed(h.value)
    ensures HeaderName(hs + [h]) == HeaderName(hs)
    ensures HeaderEmail(hs + [h]) == Some(Strip(h.value))
  {
    assert (hs + [h])[..|hs|] == hs;
  }

  /** The snippet is consulted only when no `From` header supplied a name: otherwise the name
      is the same whatever the snippet and the search. */
  lemma FallbackOnlyWithoutName(hs: seq<Header>, s1: string, a1: string -> Option<string>, s2: string, a2: string -> Option<string>)
    requires HeaderName(hs).Some?
    ensures SenderInfo(hs, s1, a1) == SenderInfo(hs, s2, a2)
  {
  }

  /** Headers that are not `From` headers change nothing. */
  lemma {:induction false} OtherHeadersIgnored(hs: seq<Header>, h: Header)
    requires !IsFrom(h)
    ensures HeaderName(hs + [h]) == HeaderName(hs) && HeaderEmail(hs + [h]) == HeaderEmail(hs)
  {
    assert (hs + [h])[..|hs|] == hs;
  }

  lemma AddressOfBareBrackets()
    ensures AddressPart("<x@y>") == "x@y"
  {
    assert AfterFirst("<x@y>", '<') == "x@y>";
    assert BeforeFirst("x@y>", '<') == "x@y>";
    assert Filter(NotChar('>'), "x@y>") == "x@y" by {
      assert "x@y>"[1..] == "@y>" && "@y>"[1..] == "y>" && "y>"[1..] == ">";
    }
    StripNoSpace("x@y");
  }

  /** `From <x@y>` gives the empty name, which is not missing, so the snippet is not searched. */
  lemma EmptyNameNoFallback(snippet: string, atName: string -> Option<string>)
    ensures SenderInfo([Header("From", "<x@y>")], snippet, atName) == (Some(""), Some("x@y"))
  {
    var hs := [Header("From", "<x@y>")];
    assert Lower("From") == "from";
    assert Bracketed("<x@y>");
    assert BeforeFirst("<x@y>", '<') == "";
    AddressOfBareBrackets();
    assert hs[..0] == [];
  }

  /** Header names match whatever their case. */
  lemma FromMatchesAnyCase(v: string)
    ensures IsFrom(Header("From", v)) && IsFrom(Header("FROM", v)) && IsFrom(Header("from", v))
    ensures !IsFrom(Header("Sender", v))
  {
    assert Lower("From") == "from";
    assert Lower("FROM") == "from";
    assert Lower("from") == "from";
    assert Lower("Sender")[0] == 's';
  }
}
