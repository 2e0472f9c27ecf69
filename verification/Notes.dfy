/** Lists of items within a length: the most items of a prefix that fit. */
module Listing {
  import opened Text

  /** k counts the longest prefix of at most max items whose join fits the room. */
  ghost predicate LongestFit(items: seq<string>, sep: string, room: int, max: nat, k: nat) {
    && k <= |items| && k <= max
    && (forall j | 0 < j <= k :: |Join(items[..j], sep)| <= room)
    && (forall j | k < j <= |items| && j <= max :: |Join(items[..j], sep)| > room)
  }

  lemma {:induction false} JoinGrows(items: seq<string>, sep: string, i: nat, j: nat)
    requires i <= j <= |items|
    ensures |Join(items[..i], sep)| <= |Join(items[..j], sep)|
  {
    if i < j {
      JoinStep(items, j - 1, sep);
      JoinGrows(items, sep, i, j - 1);
    }
  }

  /** Takes items from the first on while they fit. */
  method TakeFitting(items: seq<string>, sep: string, room: int, max: nat) returns (k: nat, used: nat)
    ensures LongestFit(items, sep, room, max, k)
    ensures used == |Join(items[..k], sep)|
  {
    k, used := 0, 0;
    assert items[..0] == [];
    while k < |items|
      invariant k <= |items| && k <= max
      invariant used == |Join(items[..k], sep)|
      invariant forall j | 0 < j <= k :: |Join(items[..j], sep)| <= room
    {
      if k == max {
        break;
      }
      JoinStep(items, k, sep);
      var cost := |items[k]|;
      if k > 0 {
        cost := cost + |sep|;
      }
      if used + cost > room {
        forall j | k < j <= |items|
          ensures |Join(items[..j], sep)| > room
        {
          JoinGrows(items, sep, k + 1, j);
        }
        break;
      }
      used := used + cost;
      k := k + 1;
    }
  }
}

/** The notes that list objects (internal/status/ownership.go, internal/status/claims.go). */
module StatusNotes {
  import opened Listing
  import opened Seqs
  import opened Text

  const EVENT_NOTE_LIMIT := 1024
  const MAX_MESSAGES := 10

  function MoreTail(n: nat): (tail: string)
    ensures |tail| == |Itoa(n)| + 12
  {
    "; and " + Itoa(n) + " more."
  }

  function BareTail(n: nat): (tail: string)
    ensures |tail| == |Itoa(n)| + 36
  {
    Itoa(n) + " objects, messages too long to list."
  }

  /** How a list of total items ends when named of them are written out. */
  function MessagesTail(named: nat, total: nat): string
    requires named <= total
  {
    if named == total then "."
    else if named == 0 then BareTail(total)
    else MoreTail(total - named)
  }

  /** The head, as many whole messages as fit and at most ten, and the number
      of the rest: named and rest make the total. The text stays within the
      note limit for every head that leaves room for a bare count. */
  method ListMessages(head: string, all: seq<string>) returns (text: string, named: nat)
    requires |all| <= MAX_INT
    ensures LongestFit(all, "; ", EVENT_NOTE_LIMIT - |head| - |MoreTail(|all|)|, MAX_MESSAGES, named)
    ensures text == head + Join(all[..named], "; ") + MessagesTail(named, |all|)
    ensures |head| <= 969 ==> |text| <= EVENT_NOTE_LIMIT
  {
    hide MoreTail;
    hide BareTail;
    hide LongestFit;
    var budget := EVENT_NOTE_LIMIT - |head| - |MoreTail(|all|)|;
    var used;
    named, used := TakeFitting(all, "; ", budget, MAX_MESSAGES);
    text := head + Join(all[..named], "; ");
    var rest := |all| - named;
    ItoaMonotone(rest, |all|);
    ItoaOfInt(|all|);
    if rest == 0 {
      text := text + ".";
    } else if named == 0 {
      assert all[..0] == [];
      text := text + BareTail(rest);
    } else {
      text := text + MoreTail(rest);
    }
  }

  method ApplyRefusedNote(messages: seq<string>) returns (text: string)
    requires |messages| <= MAX_INT
    ensures |text| <= EVENT_NOTE_LIMIT
    ensures exists named: nat | named <= |messages| && named <= MAX_MESSAGES ::
              text == "Refused to apply over " + Itoa(|messages|) + " object(s), nothing was applied: "
                      + Join(messages[..named], "; ") + MessagesTail(named, |messages|)
  {
    ItoaOfInt(|messages|);
    var named;
    var head := "Refused to apply over " + Itoa(|messages|) + " object(s), nothing was applied: ";
    text, named := ListMessages(head, messages);
  }

  method AdoptedElsewhereNote(messages: seq<string>) returns (text: string)
    requires |messages| <= MAX_INT
    ensures |text| <= EVENT_NOTE_LIMIT
    ensures exists named: nat | named <= |messages| && named <= MAX_MESSAGES ::
              text == Itoa(|messages|) + " rendered object(s) are adopted by another instance and are not applied: "
                      + Join(messages[..named], "; ") + MessagesTail(named, |messages|)
  {
    ItoaOfInt(|messages|);
    var named;
    var head := Itoa(|messages|) + " rendered object(s) are adopted by another instance and are not applied: ";
    text, named := ListMessages(head, messages);
  }

  datatype LeftObject = LeftObject(excluded: bool, message: string)

  function Owned(): LeftObject -> bool { (l: LeftObject) => !l.excluded }
  function Excluded(): LeftObject -> bool { (l: LeftObject) => l.excluded }
  function MessageOf(): LeftObject -> string { (l: LeftObject) => l.message }

  /** The objects left for an ownership reason come first, in their order. */
  method OwnershipFirst(left: seq<LeftObject>) returns (messages: seq<string>)
    ensures messages == Map(Filter(left, Owned()) + Filter(left, Excluded()), MessageOf()) && |messages| == |left|
  {
    var ordered: seq<LeftObject> := [];
    for i := 0 to |left|
      invariant ordered == Filter(left[..i], Owned())
    {
      FilterStep(left, i, Owned());
      if !left[i].excluded {
        ordered := ordered + [left[i]];
      }
    }
    FilterAll(left, Owned());
    ghost var owned := ordered;
    for i := 0 to |left|
      invariant ordered == owned + Filter(left[..i], Excluded())
    {
      FilterStep(left, i, Excluded());
      if left[i].excluded {
        ordered := ordered + [left[i]];
      }
    }
    FilterAll(left, Excluded());
    CountLeft(left);
    messages := [];
    for i := 0 to |ordered|
      invariant messages == Map(ordered[..i], MessageOf())
    {
      messages := messages + [ordered[i].message];
    }
    assert ordered[..|ordered|] == ordered;
  }

  method LeftBehindNote(left: seq<LeftObject>) returns (text: string)
    requires |left| <= MAX_INT
    ensures |text| <= EVENT_NOTE_LIMIT
    ensures var messages := Map(Filter(left, Owned()) + Filter(left, Excluded()), MessageOf());
            |messages| == |left| && exists named: nat | named <= |left| && named <= MAX_MESSAGES ::
              text == "Left " + Itoa(|left|) + " object(s) in the cluster: "
                      + Join(messages[..named], "; ") + MessagesTail(named, |left|)
  {
    var messages := OwnershipFirst(left);
    ItoaOfInt(|left|);
    var named;
    text, named := ListMessages("Left " + Itoa(|left|) + " object(s) in the cluster: ", messages);
  }

  lemma {:induction false} CountLeft(left: seq<LeftObject>)
    ensures |Filter(left, Owned())| + |Filter(left, Excluded())| == |left|
  {
    if left != [] {
      CountLeft(left[..|left| - 1]);
    }
  }

  // ---- kept claims --------------------------------------------------------

  function ClaimsAdvice(): (advice: string)
    ensures |advice| <= 200
  {
    " They are no longer tracked. Delete one with: kubectl delete pvc <name> -n <namespace>. " +
    "To let the controller delete claims from now on, set spec.dataPolicy to Delete."
  }

  function KeptHead(n: nat): (head: string)
    ensures |head| <= |Itoa(n)| + 60
  {
    "Kept " + Itoa(n) + " PersistentVolumeClaim(s) and the data on them: "
  }

  datatype KeptClaim = KeptClaim(namespace: string, name: string)

  function ClaimName(): KeptClaim -> string { (c: KeptClaim) => c.namespace + "/" + c.name }

  function ClaimsTail(named: nat, total: nat): string
    requires named <= total
  {
    if named == total then "."
    else if named == 0 then Itoa(total) + " claims, names too long to list."
    else " and " + Itoa(total - named) + " more."
  }

  /** What a note says of the items it does not name. */
  lemma TailsCount(named: nat, total: nat)
    requires named <= total
    ensures MessagesTail(named, total) ==
              if named == total then "."
              else if named == 0 then Itoa(total) + " objects, messages too long to list."
              else "; and " + Itoa(total - named) + " more."
    ensures forall c: KeptClaim :: ClaimName()(c) == c.namespace + "/" + c.name
    ensures KeptHead(total) == "Kept " + Itoa(total) + " PersistentVolumeClaim(s) and the data on them: "
    ensures ClaimsTail(named, total) ==
              if named == total then "."
              else if named == 0 then Itoa(total) + " claims, names too long to list."
              else " and " + Itoa(total - named) + " more."
  {
  }

  method ClaimsKeptNote(kept: seq<KeptClaim>) returns (text: string)
    requires |kept| <= MAX_INT
    ensures |text| <= EVENT_NOTE_LIMIT
    ensures exists named: nat | named <= |kept| && named <= MAX_MESSAGES ::
              text == KeptHead(|kept|) + Join(Map(kept, ClaimName())[..named], ", ")
                      + ClaimsTail(named, |kept|) + ClaimsAdvice()
  {
    hide ClaimsAdvice;
    hide KeptHead;
    var head := KeptHead(|kept|);
    var budget := EVENT_NOTE_LIMIT - |head| - |ClaimsAdvice()| - |" and " + Itoa(|kept|) + " more."|;
    var names := Map(kept, ClaimName());
    var named, used := TakeFitting(names, ", ", budget, MAX_MESSAGES);
    text := head + Join(names[..named], ", ");
    var rest := |kept| - named;
    ItoaMonotone(rest, |kept|);
    ItoaOfInt(|kept|);
    if rest == 0 {
      text := text + ".";
    } else if named == 0 {
      assert names[..0] == [];
      text := text + Itoa(rest) + " claims, names too long to list.";
    } else {
      text := text + (" and " + Itoa(rest) + " more.");
    }
    text := text + ClaimsAdvice();
  }
}

/** The number of adopted objects that the Ready message carries from one
    reconcile to the next (internal/status/ownership.go). */
module ReadyMessages {
  import opened Text

  const CLAUSE := " rendered object(s) are adopted by another instance and are not applied."
  const READY_SUCCEEDED := "Reconciliation succeeded"

  /** strings.TrimRight with the cutset ". ": the longest front of s that does
      not end in one of these. */
  function TrimRight(s: string): (t: string)
    ensures t <= s && (t != "" ==> t[|t| - 1] != '.' && t[|t| - 1] != ' ')
    ensures forall k | |t| <= k < |s| :: s[k] == '.' || s[k] == ' '
  {
    if s != "" && (s[|s| - 1] == '.' || s[|s| - 1] == ' ') then TrimRight(s[..|s| - 1]) else s
  }

  function ReadyMessage(base: string, adopted: int): string {
    if adopted <= 0 then base else TrimRight(base) + ". " + Itoa(adopted) + CLAUSE
  }

  /** How many digits s ends with. */
  function TrailingDigits(s: string): (n: nat)
    ensures n <= |s| && AllDigits(s[|s| - n..])
  {
    if s == "" || !IsDigit(s[|s| - 1]) then 0
    else
      var n := TrailingDigits(s[..|s| - 1]);
      assert s[|s| - (n + 1)..] == s[..|s| - 1][|s| - 1 - n..] + [s[|s| - 1]];
      n + 1
  }

  /** The count that the message states: its end is a run of digits, matched
      from its leftmost digit, and the clause; no number beyond Go's int counts. */
  function AdoptedElsewhereCount(message: string): nat {
    if |message| < |CLAUSE| || message[|message| - |CLAUSE|..] != CLAUSE then 0
    else
      var before := message[..|message| - |CLAUSE|];
      var n := TrailingDigits(before);
      if n == 0 then 0
      else
        var value := Value(before[|before| - n..]);
        if value <= MAX_INT then value else 0
  }

  lemma {:induction false} TrailingDigitsOf(front: string, digits: string)
    requires AllDigits(digits) && (front == "" || !IsDigit(front[|front| - 1]))
    ensures TrailingDigits(front + digits) == |digits|
  {
    if digits == "" {
      assert front + digits == front;
    } else {
      var s := front + digits;
      assert s[..|s| - 1] == front + digits[..|digits| - 1];
      TrailingDigitsOf(front, digits[..|digits| - 1]);
    }
  }

  /** Reading back a written count: for every base the message states exactly
      the count, as far as it is a Go int; one beyond that reads as none. */
  lemma CountRoundTrips(base: string, n: nat)
    requires n > 0
    ensures AdoptedElsewhereCount(ReadyMessage(base, n)) == if n <= MAX_INT then n else 0
  {
    var front := TrimRight(base) + ". ";
    var message := ReadyMessage(base, n);
    var before := front + Itoa(n);
    assert message == before + CLAUSE;
    assert message[|message| - |CLAUSE|..] == CLAUSE && message[..|message| - |CLAUSE|] == before;
    TrailingDigitsOf(front, Itoa(n));
    assert before[|before| - |Itoa(n)|..] == Itoa(n);
    ValueOfItoa(n);
  }

  /** The message of a reconcile that let nothing go states no count. */
  lemma NoCountWithoutAdoption(n: int)
    requires n <= 0
    ensures AdoptedElsewhereCount(ReadyMessage(READY_SUCCEEDED, n)) == 0
  {
  }
}

/** Characters of a byte string, as unicode/utf8 counts them (section 4 of RFC 3629). */
module Utf8 {

  predicate InRange(s: string, i: nat, low: int, high: int) {
    i < |s| && low <= s[i] as int <= high
  }

  predicate Continues(s: string, i: nat) {
    InRange(s, i, 0x80, 0xBF)
  }

  /** utf8.RuneStart: not a continuation byte. */
  predicate RuneStart(c: char) {
    !(0x80 <= c as int <= 0xBF)
  }

  /** How many bytes the first character takes; a byte that starts no valid
      sequence is a character of its own. */
  function Width(s: string): (n: nat)
    requires s != ""
    ensures 1 <= n <= |s|
    ensures forall k | 1 <= k < n :: Continues(s, k)
  {
    var b := s[0] as int;
    if 0xC2 <= b <= 0xDF && Continues(s, 1) then 2
    else if b == 0xE0 && InRange(s, 1, 0xA0, 0xBF) && Continues(s, 2) then 3
    else if ((0xE1 <= b <= 0xEC) || b == 0xEE || b == 0xEF) && Continues(s, 1) && Continues(s, 2) then 3
    else if b == 0xED && InRange(s, 1, 0x80, 0x9F) && Continues(s, 2) then 3
    else if b == 0xF0 && InRange(s, 1, 0x90, 0xBF) && Continues(s, 2) && Continues(s, 3) then 4
    else if 0xF1 <= b <= 0xF3 && Continues(s, 1) && Continues(s, 2) && Continues(s, 3) then 4
    else if b == 0xF4 && InRange(s, 1, 0x80, 0x8F) && Continues(s, 2) && Continues(s, 3) then 4
    else 1
  }

  /** utf8.RuneCountInString. */
  function RuneCount(s: string): (n: nat)
    ensures n <= |s|
    decreases |s|
  {
    if s == "" then 0 else 1 + RuneCount(s[Width(s)..])
  }

  /** Before a cut at a character start the characters are the same. */
  lemma WidthOfPrefix(s: string, p: nat)
    requires 0 < p < |s| && RuneStart(s[p])
    ensures Width(s) <= p && Width(s[..p]) == Width(s)
  {
    assert !Continues(s, p);
    assert Width(s) <= p;
    assert forall k: nat, low, high | k < p :: InRange(s[..p], k, low, high) == InRange(s, k, low, high);
  }

  // Characters by their code points, after section 3 of RFC 3629.

  predicate IsScalar(c: int) {
    0 <= c < 0xD800 || 0xE000 <= c <= 0x10FFFF
  }

  function EncodeRune(c: int): (s: string)
    requires IsScalar(c)
    ensures s != ""
  {
    if c < 0x80 then [c as char]
    else if c < 0x800 then [(0xC0 + c / 64) as char, (0x80 + c % 64) as char]
    else if c < 0x10000 then [(0xE0 + c / 4096) as char, (0x80 + c / 64 % 64) as char, (0x80 + c % 64) as char]
    else [(0xF0 + c / 262144) as char, (0x80 + c / 4096 % 64) as char, (0x80 + c / 64 % 64) as char,
          (0x80 + c % 64) as char]
  }

  /** The text of these characters. */
  function EncodeRunes(cs: seq<int>): string
    requires forall i | 0 <= i < |cs| :: IsScalar(cs[i])
  {
    if cs == [] then "" else EncodeRune(cs[0]) + EncodeRunes(cs[1..])
  }

  /** Every encoded character is taken as a whole. */
  lemma WidthOfRune(c: int, rest: string)
    requires IsScalar(c)
    ensures Width(EncodeRune(c) + rest) == |EncodeRune(c)|
  {
    var s := EncodeRune(c) + rest;
    assert forall i | 0 <= i < |EncodeRune(c)| :: s[i] == EncodeRune(c)[i];
  }

  /** Only an encoded character is taken for more than one byte. */
  lemma WideIsRune(s: string) returns (c: int)
    requires s != "" && Width(s) > 1
    ensures IsScalar(c) && s[..Width(s)] == EncodeRune(c)
  {
    if Width(s) == 2 {
      c := TwoBytes(s[0] as int - 0xC0, s[1] as int - 0x80);
    } else if Width(s) == 3 {
      c := ThreeBytes(s[0] as int - 0xE0, s[1] as int - 0x80, s[2] as int - 0x80);
    } else {
      c := FourBytes(s[0] as int - 0xF0, s[1] as int - 0x80, s[2] as int - 0x80, s[3] as int - 0x80);
    }
    hide Width;
    assert s[..|EncodeRune(c)|] == EncodeRune(c);
  }

  lemma TwoBytes(a: nat, b: nat) returns (c: int)
    requires 2 <= a < 32 && b < 64
    ensures IsScalar(c) && EncodeRune(c) == [(0xC0 + a) as char, (0x80 + b) as char]
  {
    c := a * 64 + b;
  }

  lemma ThreeBytes(a: nat, b: nat, d: nat) returns (c: int)
    requires a < 16 && b < 64 && d < 64 && (a == 0 ==> b >= 32) && (a == 13 ==> b < 32)
    ensures IsScalar(c)
    ensures EncodeRune(c) == [(0xE0 + a) as char, (0x80 + b) as char, (0x80 + d) as char]
  {
    c := a * 4096 + b * 64 + d;
    assert c / 64 == a * 64 + b;
  }

  lemma FourBytes(a: nat, b: nat, d: nat, e: nat) returns (c: int)
    requires a < 5 && b < 64 && d < 64 && e < 64 && (a == 0 ==> b >= 16) && (a == 4 ==> b < 16)
    ensures IsScalar(c)
    ensures EncodeRune(c) == [(0xF0 + a) as char, (0x80 + b) as char, (0x80 + d) as char, (0x80 + e) as char]
  {
    c := a * 262144 + b * 4096 + d * 64 + e;
    assert c / 64 == a * 4096 + b * 64 + d && c / 4096 == a * 64 + b;
  }

  /** The count of a text is the number of its characters. */
  lemma {:induction false} CountOfText(cs: seq<int>)
    requires forall i | 0 <= i < |cs| :: IsScalar(cs[i])
    ensures RuneCount(EncodeRunes(cs)) == |cs|
  {
    if cs != [] {
      WidthOfRune(cs[0], EncodeRunes(cs[1..]));
      CountOfText(cs[1..]);
      var s := EncodeRunes(cs);
      assert s[|EncodeRune(cs[0])|..] == EncodeRunes(cs[1..]);
    }
  }

  /** A byte that starts no encoded character counts as one. */
  lemma CountOfStray(s: string)
    requires s != "" && Width(s) == 1
    ensures RuneCount(s) == 1 + RuneCount(s[1..])
  {
  }

  /** A cut at a character start keeps the number of characters. */
  lemma {:induction false} CutConservesCharacters(s: string, p: nat)
    requires p <= |s| && (p == 0 || p == |s| || RuneStart(s[p]))
    ensures RuneCount(s) == RuneCount(s[..p]) + RuneCount(s[p..])
    decreases |s|
  {
    hide Width;
    hide RuneStart;
    if p == 0 {
      assert s[0..] == s;
    } else if p == |s| {
      assert s[..p] == s && s[p..] == "";
    } else {
      WidthOfPrefix(s, p);
      var w := Width(s);
      CutConservesCharacters(s[w..], p - w);
      assert s[..p][w..] == s[w..][..p - w];
      assert s[p..] == s[w..][p - w..];
    }
  }
}

/** The wording of a render failure within a length (internal/render/findings.go). */
module Findings {
  import opened Listing
  import opened Options
  import opened Text
  import opened Utf8

  const EVENT_NOTE_LIMIT := 1024
  const CONDITION_MESSAGE_LIMIT := 32768

  function MoreFindings(n: nat): string {
    "; and " + Itoa(n) + " more findings"
  }

  /** The longest list of whole items within the budget, and a count of the rest. */
  method ListWithin(items: seq<string>, budget: int) returns (list: Option<string>, kept: nat)
    ensures list.Some? ==> |list.value| <= budget && kept <= |items|
    ensures list.Some? ==>
              list.value == Join(items[..kept], "; ") + if kept == |items| then "" else MoreFindings(|items| - kept)
    ensures list.Some? && kept < |items| ==>
              && kept > 0 && LongestFit(items, "; ", budget - |MoreFindings(|items|)|, |items|, kept)
              && |Join(items, "; ")| > budget
    ensures list.None? <==>
              |Join(items, "; ")| > budget && (items == [] || |items[0]| + |MoreFindings(|items|)| > budget)
  {
    var full := Join(items, "; ");
    assert items[..|items|] == items;
    if |full| <= budget {
      return Some(full), |items|;
    }
    var room := budget - |MoreFindings(|items|)|;
    var used;
    kept, used := TakeFitting(items, "; ", room, |items|);
    if items != [] { assert items[..1] == [items[0]]; }
    if kept == 0 {
      return None, 0;
    }
    JoinGrows(items, "; ", 1, kept);
    ItoaMonotone(|items| - kept, |items|);
    list := Some(Join(items[..kept], "; ") + MoreFindings(|items| - kept));
  }

  function CutTail(n: nat): string {
    " ... (" + Itoa(n) + " more characters)"
  }

  /** What a wording says of the findings or characters it leaves out. */
  lemma TailsCount(n: nat)
    ensures MoreFindings(n) == "; and " + Itoa(n) + " more findings"
    ensures CutTail(n) == " ... (" + Itoa(n) + " more characters)"
  {
  }

  /** How a text longer than the limit is cut: at the last character start
      that leaves room for the longest count, with the number of characters
      left out. */
  ghost predicate IsCut(text: string, limit: int, cut: string, keep: nat) {
    && keep <= |text| && (keep > 0 ==> keep < |text| && RuneStart(text[keep]) && keep <= limit - |CutTail(|text|)|)
    && (forall j | keep < j <= limit - |CutTail(|text|)| && j < |text| :: !RuneStart(text[j]))
    && cut == text[..keep] + CutTail(RuneCount(text[keep..]))
    && RuneCount(text[..keep]) + RuneCount(text[keep..]) == RuneCount(text)
  }

  /** The text, or its cut start and a count. It fits the limit whenever the
      shortest possible wording does. */
  method CutText(text: string, limit: int) returns (cut: string, keep: nat)
    ensures if |text| <= limit then cut == text && keep == |text| else IsCut(text, limit, cut, keep)
    ensures |cut| <= limit <==> |text| <= limit || |CutTail(RuneCount(text))| <= limit
  {
    if |text| <= limit {
      return text, |text|;
    }
    assert RuneCount(text) <= |text|;
    ItoaMonotone(RuneCount(text), |text|);
    var at := if limit - |CutTail(|text|)| > 0 then limit - |CutTail(|text|)| else 0;
    while at > 0 && !RuneStart(text[at])
      invariant 0 <= at <= |text| && (at > 0 ==> at < |text| && at <= limit - |CutTail(|text|)|)
      invariant |CutTail(|text|)| <= limit || at == 0
      invariant forall j | at < j <= limit - |CutTail(|text|)| && j < |text| :: !RuneStart(text[j])
    {
      at := at - 1;
    }
    keep := at;
    CutConservesCharacters(text, keep);
    ItoaMonotone(RuneCount(text[keep..]), |text|);
    if keep == 0 { assert text[0..] == text; }
    cut := text[..keep] + CutTail(RuneCount(text[keep..]));
  }

  /** The frame and the findings of one failed render. */
  datatype FindingsError = FindingsError(frame: string, findings: seq<string>) {
    function Text(): string {
      frame + Join(findings, "; ")
    }
  }

  /** The wording of e within a limit: all of it; or as many whole findings as
      fit and a count of the rest; or, when not even one fits, the cut text. */
  ghost predicate Worded(e: FindingsError, limit: int, text: string) {
    var n := |e.findings|;
    if |e.Text()| <= limit then text == e.Text()
    else if n > 0 && |e.frame| + |e.findings[0]| + |MoreFindings(n)| <= limit then
      exists k: nat :: && 0 < k < n && LongestFit(e.findings, "; ", limit - |e.frame| - |MoreFindings(n)|, n, k)
                       && text == e.frame + (Join(e.findings[..k], "; ") + MoreFindings(n - k))
    else exists keep: nat :: IsCut(e.Text(), limit, text, keep)
  }

  /** findingsError.within: every limit that holds a bare count is kept. */
  method Within(e: FindingsError, limit: int) returns (text: string)
    ensures Worded(e, limit, text)
    ensures |CutTail(RuneCount(e.Text()))| <= limit ==> |text| <= limit
    ensures |text| > limit ==> |e.Text()| > limit
  {
    hide IsCut;
    hide LongestFit;
    hide Join;
    hide MoreFindings;
    hide CutTail;
    hide RuneCount;
    var list, kept := ListWithin(e.findings, limit - |e.frame|);
    if list.Some? {
      assert e.findings[..|e.findings|] == e.findings;
      return e.frame + list.value;
    }
    var cut, keep := CutText(e.frame + Join(e.findings, "; "), limit);
    text := cut;
  }

  lemma TailFits(text: string)
    requires |text| <= MAX_INT
    ensures |CutTail(RuneCount(text))| <= 42
  {
    ItoaMonotone(RuneCount(text), |text|);
    ItoaOfInt(|text|);
  }

  /** The note of an error with this text around findings worded as own. */
  ghost predicate IsNote(e: FindingsError, own: string, text: string, note: string) {
    if |text| <= EVENT_NOTE_LIMIT then note == text
    else if own == text then Worded(e, EVENT_NOTE_LIMIT, note)
    else exists keep: nat :: IsCut(text, EVENT_NOTE_LIMIT, note, keep)
  }

  /** The event note of a failure is never refused for its length. wrapped is
      the text of an error around the findings, if there is one: only a wording
      that is the whole text may replace it. */
  method EventNote(e: FindingsError, wrapped: Option<string>) returns (note: string)
    requires |e.Text()| <= MAX_INT && (wrapped.Some? ==> |wrapped.value| <= MAX_INT)
    ensures |note| <= EVENT_NOTE_LIMIT
    ensures exists own :: Worded(e, CONDITION_MESSAGE_LIMIT, own)
              && IsNote(e, own, if wrapped.Some? then wrapped.value else own, note)
  {
    hide Worded;
    hide IsCut;
    TailFits(e.Text());
    var own := Within(e, CONDITION_MESSAGE_LIMIT);
    var text := if wrapped.Some? then wrapped.value else own;
    if |text| <= EVENT_NOTE_LIMIT {
      assert IsNote(e, own, text, text);
      return text;
    }
    if own == text {
      note := Within(e, EVENT_NOTE_LIMIT);
      assert IsNote(e, own, text, note);
      return;
    }
    TailFits(text);
    var keep;
    note, keep := CutText(text, EVENT_NOTE_LIMIT);
    assert IsNote(e, own, text, note);
  }
}
