/** internal/core/model/recipients.go, and nonBlank of client/email.go, which cleans a list the same way. */
module Recipients {
  import opened Numbers
  import opened Texts

  /** The trimmed non-blank items, in order. */
  function NonBlank(items: seq<string>): seq<string> {
    if |items| == 0 then []
    else (if TrimSpace(items[0]) != "" then [TrimSpace(items[0])] else []) + NonBlank(items[1..])
  }

  function ParseRecipients(list: string): seq<string> { NonBlank(SplitCommas(list)) }

  /** The loop shared by ParseRecipients, over the comma-separated parts, and by the client's nonBlank. */
  method CollectNonBlank(items: seq<string>) returns (result: seq<string>)
    ensures result == NonBlank(items)
  {
    result := [];
    for i := 0 to |items|
      invariant result + NonBlank(items[i..]) == NonBlank(items)
    {
      var trimmed := TrimSpace(items[i]);
      assert items[i..][1..] == items[i + 1..];
      if trimmed != "" { result := result + [trimmed]; }
    }
  }

  /** Recipients.String. */
  function Show(list: seq<string>): string { Join(list, ", ") }

  /** A JSON value where recipients are expected. */
  datatype Json = Text(text: string) | Items(items: seq<string>) | Null | Other

  /** UnmarshalJSON; null decodes like the empty string. */
  function Unmarshal(value: Json): Option<seq<string>> {
    match value
    case Text(text) => Some(ParseRecipients(text))
    case Null => Some(ParseRecipients(""))
    case Items(items) => Some(ParseRecipients(Join(items, ",")))
    case Other => None
  }

  function Concat(lists: seq<seq<string>>): seq<string> {
    if |lists| == 0 then [] else lists[0] + Concat(lists[1..])
  }

  function ParseEach(items: seq<string>): seq<seq<string>> {
    seq(|items|, i requires 0 <= i < |items| => ParseRecipients(items[i]))
  }

  /** An entry of a parsed list. */
  predicate IsEntry(s: string) { s != "" && Trimmed(s) && ',' !in s }

  predicate AllEntries(list: seq<string>) { forall e :: e in list ==> IsEntry(e) }

  // ---------------------------------------------------------------- laws

  lemma {:induction false} NonBlankConcat(a: seq<string>, b: seq<string>)
    ensures NonBlank(a + b) == NonBlank(a) + NonBlank(b)
  {
    if |a| == 0 {
      assert a + b == b;
    } else {
      assert (a + b)[1..] == a[1..] + b;
      NonBlankConcat(a[1..], b);
    }
  }

  /** Each item counts for itself: white space is dropped, and anything else kept without the white space around it. */
  lemma {:induction false} EachItem(before: seq<string>, item: string, after: seq<string>)
    ensures var kept := NonBlank(before + [item] + after);
            kept == NonBlank(before) + (if NotBlank(item) then [TrimSpace(item)] else []) + NonBlank(after)
  {
    NonBlankConcat(before + [item], after);
    NonBlankConcat(before, [item]);
    TrimmedAwayIff(item);
    assert [item][1..] == [];
  }

  lemma {:induction false} ParseConcat(a: string, b: string)
    ensures ParseRecipients(a + "," + b) == ParseRecipients(a) + ParseRecipients(b)
  {
    SplitCommasConcat(a, b);
    NonBlankConcat(SplitCommas(a), SplitCommas(b));
  }

  lemma {:induction false} ParseEmpty()
    ensures ParseRecipients("") == []
  {
  }

  /** Parsing the comma-join of any list is the concatenation of the parses of its items. */
  lemma {:induction false} ParseOfJoin(items: seq<string>)
    ensures ParseRecipients(Join(items, ",")) == Concat(ParseEach(items))
  {
    if |items| == 0 {
      ParseEmpty();
    } else {
      assert ParseEach(items)[1..] == ParseEach(items[1..]);
      ParseOfJoin(items[1..]);
      if |items| == 1 {
        assert Concat(ParseEach(items[1..])) == [];
      } else {
        ParseConcat(items[0], Join(items[1..], ","));
      }
    }
  }

  lemma {:induction false} NonBlankEntries(items: seq<string>)
    ensures forall e :: e in NonBlank(items) ==> e != "" && Trimmed(e)
    ensures (forall e :: e in items ==> ',' !in e) ==> AllEntries(NonBlank(items))
  {
    if |items| > 0 {
      TrimSpaceResult(items[0]);
      NonBlankEntries(items[1..]);
      assert items[0] in items && forall e :: e in items[1..] ==> e in items;
    }
  }

  /** Every parsed entry is trimmed, non-blank and comma-free. */
  lemma {:induction false} ParsedEntries(list: string)
    ensures AllEntries(ParseRecipients(list))
  {
    SplitCommasCommaFree(list);
    NonBlankEntries(SplitCommas(list));
  }

  lemma {:induction false} EntryIsFixed(e: string)
    requires IsEntry(e)
    ensures TrimSpace(e) == e && ParseRecipients(e) == [e]
  {
    SplitCommasAt(e, "");
    assert [e][1..] == [] && NonBlank([e]) == [e] + NonBlank([]);
  }

  lemma {:induction false} LeadingSpace(s: string)
    ensures ParseRecipients(" " + s) == ParseRecipients(s)
  {
  }

  /** A list of entries is read back from its comma-join, the wire form of an array. */
  lemma {:induction false} CommaJoinRoundTrip(list: seq<string>)
    requires AllEntries(list)
    ensures ParseRecipients(Join(list, ",")) == list
  {
    if |list| == 0 {
      ParseEmpty();
    } else {
      EntryIsFixed(list[0]);
      if |list| > 1 {
        CommaJoinRoundTrip(list[1..]);
        ParseConcat(list[0], Join(list[1..], ","));
      }
    }
  }

  /** A list of entries is read back from its String(), the form of the To and Cc headers. */
  lemma {:induction false} ShowRoundTrip(list: seq<string>)
    requires AllEntries(list)
    ensures ParseRecipients(Show(list)) == list
  {
    if |list| == 0 {
      ParseEmpty();
    } else {
      EntryIsFixed(list[0]);
      if |list| > 1 {
        var rest := Show(list[1..]);
        ShowRoundTrip(list[1..]);
        ParseConcat(list[0], " " + rest);
        LeadingSpace(rest);
        assert Show(list) == list[0] + "," + (" " + rest);
      }
    }
  }

  /** Parsing any text, showing it and parsing again changes nothing, and the marshalled array decodes to the same
      list. */
  lemma {:induction false} ParsedRoundTrip(list: string)
    ensures var r := ParseRecipients(list);
            ParseRecipients(Show(r)) == r && Unmarshal(Items(r)) == Some(r) && Unmarshal(Text(Show(r))) == Some(r)
  {
    ParsedEntries(list);
    CommaJoinRoundTrip(ParseRecipients(list));
    ShowRoundTrip(ParseRecipients(list));
  }

  /** The wire form of a client's list decodes to it exactly when no entry that is kept contains a comma. */
  lemma {:induction false} WireRecipientsIff(values: seq<string>)
    ensures Unmarshal(Items(NonBlank(values))) == Some(NonBlank(values))
            <==> forall e :: e in NonBlank(values) ==> ',' !in e
  {
    NonBlankEntries(values);
    if forall e :: e in NonBlank(values) ==> ',' !in e {
      CommaJoinRoundTrip(NonBlank(values));
    } else {
      ParsedEntries(Join(NonBlank(values), ","));
    }
  }
}
