/** What a written result, and the response made of it, say to a reader of the whole document. */
module Documents {
  import opened Options
  import opened Bytes
  import opened Sequences
  import opened JsonText
  import opened Printer
  import opened ResponseText
  import opened JsonParser

  /** The member of this name; the last one, as objects are read. */
  function Get(j: Json, name: string): Option<Json> {
    if j.JObject? then GetMember(j.members, name) else None
  }

  function GetMember(members: seq<Member>, name: string): Option<Json> {
    if members == [] then None
    else
      var last := members[|members| - 1];
      if last.name == name then Some(last.value) else GetMember(members[..|members| - 1], name)
  }

  lemma {:induction false} MemberFound(members: seq<Member>, i: nat)
    requires i < |members| && forall k :: i < k < |members| ==> members[k].name != members[i].name
    ensures GetMember(members, members[i].name) == Some(members[i].value)
  {
    if i < |members| - 1 {
      MemberFound(members[..|members| - 1], i);
    }
  }

  /** A number as it is, or as the response has it: null when JSON has no such number. */
  function Shown(n: Number, nulled: bool): Json {
    if nulled && (n.NaN? || n.PosInfinity? || n.NegInfinity?) then JNull else JNumber(n)
  }

  predicate SaysSeries(j: Option<Json>, values: Series, nulled: bool) {
    && j.Some? && j.value.JArray? && |j.value.items| == |values|
    && forall t :: 0 <= t < |values| ==> j.value.items[t] == Shown(values[t], nulled)
  }

  ghost predicate SaysConsumer(j: Json, c: Consumer, nulled: bool)
    requires IsConsumer(c)
  {
    && Get(j, "name") == Some(JString(c.name))
    && forall name :: name in CONSUMER_SERIES ==> SaysSeries(Get(j, name), c.series[name], nulled)
  }

  ghost predicate SaysIteration(j: Json, it: Iteration, nulled: bool)
    requires IsIteration(it)
  {
    && Get(j, "number") == Some(JNumber(it.number))
    && (forall name :: name in ITERATION_SERIES ==> SaysSeries(Get(j, name), it.series[name], nulled))
    && var consumers := Get(j, "consumers");
       && consumers.Some? && consumers.value.JArray? && |consumers.value.items| == |it.consumers|
       && forall i :: 0 <= i < |it.consumers| ==> SaysConsumer(consumers.value.items[i], it.consumers[i], nulled)
  }

  /** Each iteration's number and series, and each consumer's name and series, under their names and in order. */
  ghost predicate SaysResult(j: Json, result: seq<Iteration>, nulled: bool)
    requires IsResult(result)
  {
    var iterations := Get(j, "iterations");
    && iterations.Some? && iterations.value.JArray? && |iterations.value.items| == |result|
    && forall k :: 0 <= k < |result| ==> SaysIteration(iterations.value.items[k], result[k], nulled)
  }

  // ---- Objects as they are written, with or without nulls ----

  function Show(j: Json, nulled: bool): Json {
    if nulled then NulledJson(j) else j
  }

  lemma {:induction false} NulledAt(items: seq<Json>, i: nat)
    requires i < |items|
    ensures NulledItems(items)[i] == NulledJson(items[i])
  {
    if i > 0 {
      NulledAt(items[1..], i - 1);
    }
  }

  lemma {:induction false} NulledMemberAt(members: seq<Member>, i: nat)
    requires i < |members|
    ensures NulledMembers(members)[i] == Member(members[i].name, NulledJson(members[i].value))
  {
    if i > 0 {
      NulledMemberAt(members[1..], i - 1);
    }
  }

  lemma ShownItems(items: seq<Json>, nulled: bool)
    ensures var shown := Show(JArray(items), nulled);
            && shown.JArray? && |shown.items| == |items|
            && forall i :: 0 <= i < |items| ==> shown.items[i] == Show(items[i], nulled)
  {
    if nulled {
      forall i | 0 <= i < |items| ensures NulledItems(items)[i] == NulledJson(items[i]) {
        NulledAt(items, i);
      }
    }
  }

  lemma ShownMember(members: seq<Member>, i: nat, nulled: bool)
    requires i < |members| && forall k :: i < k < |members| ==> members[k].name != members[i].name
    ensures Get(Show(JObject(members), nulled), members[i].name) == Some(Show(members[i].value, nulled))
  {
    if nulled {
      forall k | 0 <= k < |members|
        ensures NulledMembers(members)[k] == Member(members[k].name, NulledJson(members[k].value))
      {
        NulledMemberAt(members, k);
      }
      MemberFound(NulledMembers(members), i);
    } else {
      MemberFound(members, i);
    }
  }

  lemma ShownSeries(values: Series, nulled: bool)
    ensures SaysSeries(Some(Show(SeriesJson(values), nulled)), values, nulled)
  {
    ShownItems(SeriesJson(values).items, nulled);
  }

  predicate DistinctNames(names: seq<string>) {
    forall i, k :: 0 <= i < k < |names| ==> names[i] != names[k]
  }

  /** An object of one first member, series and perhaps a last member. */
  lemma ShownObject(first: Member, series: map<string, Series>, names: seq<string>, last: seq<Member>, nulled: bool)
    requires (forall i :: 0 <= i < |names| ==> names[i] in series) && DistinctNames(names) && |last| <= 1
    requires first.name !in names && forall m :: m in last ==> m.name !in names && m.name != first.name
    ensures var j := Show(JObject([first] + SeriesMembers(series, names) + last), nulled);
            && Get(j, first.name) == Some(Show(first.value, nulled))
            && (forall name :: name in names ==> SaysSeries(Get(j, name), series[name], nulled))
            && (last != [] ==> Get(j, last[0].name) == Some(Show(last[0].value, nulled)))
  {
    var members := [first] + SeriesMembers(series, names) + last;
    var j := Show(JObject(members), nulled);
    assert forall k :: 0 < k < |members| ==> members[k].name != first.name;
    ShownMember(members, 0, nulled);
    forall name | name in names ensures SaysSeries(Get(j, name), series[name], nulled) {
      var i :| 0 <= i < |names| && names[i] == name;
      assert members[i + 1] == Member(name, SeriesJson(series[name]));
      forall k | i + 1 < k < |members| ensures members[k].name != name {
        if k <= |names| {
          assert members[k].name == names[k - 1];
        } else {
          assert members[k] in last;
        }
      }
      ShownMember(members, i + 1, nulled);
      ShownSeries(series[name], nulled);
    }
    if last != [] {
      assert members[|names| + 1] == last[0];
      ShownMember(members, |names| + 1, nulled);
    }
  }

  lemma Names()
    ensures DistinctNames(ITERATION_SERIES) && DistinctNames(CONSUMER_SERIES)
    ensures "number" !in ITERATION_SERIES && "consumers" !in ITERATION_SERIES && "name" !in CONSUMER_SERIES
    ensures "consumers" != "number"
  {
    assert |ITERATION_SERIES[0]| == 11 && |ITERATION_SERIES[1]| == 16 && |ITERATION_SERIES[2]| == 25;
    assert |ITERATION_SERIES[3]| == 15 && |ITERATION_SERIES[4]| == 7 && |ITERATION_SERIES[5]| == 12;
    assert |ITERATION_SERIES[6]| == 21;
    assert CONSUMER_SERIES == ITERATION_SERIES[..5];
    assert |"number"| == 6 && |"consumers"| == 9 && |"name"| == 4;
  }

  lemma ShownConsumer(c: Consumer, nulled: bool)
    requires IsConsumer(c)
    ensures SaysConsumer(Show(JObject(ConsumerMembers(c)), nulled), c, nulled)
  {
    var first := Member("name", JString(c.name));
    Names();
    ShownObject(first, c.series, CONSUMER_SERIES, [], nulled);
    NothingAfter(ConsumerMembers(c));
  }

  lemma ShownIteration(it: Iteration, nulled: bool)
    requires IsIteration(it)
    ensures SaysIteration(Show(JObject(IterationMembers(it)), nulled), it, nulled)
  {
    var first, last := Member("number", JNumber(it.number)), Member("consumers", JArray(ConsumersJson(it.consumers)));
    Names();
    ShownObject(first, it.series, ITERATION_SERIES, [last], nulled);
    ShownItems(ConsumersJson(it.consumers), nulled);
    hide SaysConsumer, ConsumerMembers, Get, IsConsumer;
    forall i | 0 <= i < |it.consumers|
      ensures SaysConsumer(Show(ConsumersJson(it.consumers)[i], nulled), it.consumers[i], nulled)
    {
      ShownConsumer(it.consumers[i], nulled);
    }
  }

  lemma ShownResult(result: seq<Iteration>, nulled: bool)
    requires IsResult(result)
    ensures SaysResult(Show(Payload(result), nulled), result, nulled)
  {
    ShownMember([Member("iterations", JArray(IterationsJson(result)))], 0, nulled);
    ShownItems(IterationsJson(result), nulled);
    hide SaysIteration, IterationMembers, Get, IsIteration;
    forall k | 0 <= k < |result| ensures SaysIteration(Show(IterationsJson(result)[k], nulled), result[k], nulled) {
      ShownIteration(result[k], nulled);
    }
  }

  // ---- The document and the response ----

  /** A written document says the result: every series of iterations and consumers under its name. */
  lemma DocumentSays(result: seq<Iteration>)
    requires IsResult(result)
    ensures var doc := Parse(Print(Payload(result)));
            doc.Some? && SaysResult(doc.value, result, false)
  {
    PayloadIsJson(result);
    hide Parse, Print, Payload, SaysResult;
    ParsePrinted(Payload(result));
    ShownResult(result, false);
  }

  lemma {:induction false} NulledIsJson(j: Json)
    requires IsJson(j)
    ensures IsJson(NulledJson(j))
    decreases j
  {
    match j
    case JArray(items) =>
      forall i | 0 <= i < |items| ensures IsJson(NulledItems(items)[i]) {
        NulledAt(items, i);
        NulledIsJson(items[i]);
      }
    case JObject(members) =>
      forall i | 0 <= i < |members| ensures IsJson(NulledMembers(members)[i].value) {
        NulledMemberAt(members, i);
        NulledIsJson(members[i].value);
      }
    case _ =>
  }

  /** The response made of it says it too, with null for the numbers JSON does not have, and no error. */
  lemma ResponseSays(result: seq<Iteration>)
    requires IsResult(result)
    ensures var response := Parse(Print(Response(NulledJson(Payload(result)))));
            && response.Some? && Get(response.value, "error_code") == Some(JNumber(Finite("0")))
            && Get(response.value, "data").Some? && SaysResult(Get(response.value, "data").value, result, true)
  {
    var data := NulledJson(Payload(result));
    PayloadIsJson(result);
    NulledIsJson(Payload(result));
    ShownResult(result, true);
    ResponseMembers(data);
    hide Parse, Print, Payload, SaysResult, IsResult, NulledJson, Get;
    ParsePrinted(Response(data));
  }

  lemma ResponseMembers(data: Json)
    requires IsJson(data)
    ensures IsJson(Response(data)) && Get(Response(data), "data") == Some(data)
    ensures Get(Response(data), "error_code") == Some(JNumber(Finite("0")))
  {
    var members := Response(data).members;
    MemberFound(members, 1);
    assert |"data"| == 4 && |"error_code"| == 10;
    MemberFound(members, 0);
  }

  // ---- ASCII only ----

  predicate IsAscii(s: bytes) {
    forall i :: 0 <= i < |s| ==> ' ' <= s[i] <= '~'
  }

  lemma {:induction false} BodyIsAscii(s: string)
    ensures IsAscii(EncodeBody(s))
  {
    if s != [] {
      BodyIsAscii(s[1..]);
      CharIsAscii(s[0]);
    }
  }

  lemma CharIsAscii(c: char)
    ensures IsAscii(EncodeChar(c))
  {
    if c as int >= 0x10000 {
      EscapeIsAscii(0xd800 + (c as int - 0x10000) / 1024);
      EscapeIsAscii(0xdc00 + (c as int - 0x10000) % 1024);
      hide UnicodeEscape;
    } else {
      EscapeIsAscii(c as int);
      hide UnicodeEscape;
    }
  }

  lemma EscapeIsAscii(n: nat)
    requires n < 0x10000
    ensures IsAscii(UnicodeEscape(n))
  {
    HexIsAscii(n / 4096);
    HexIsAscii(n / 256 % 16);
    HexIsAscii(n / 16 % 16);
    HexIsAscii(n % 16);
  }

  lemma HexIsAscii(n: nat)
    requires n < 16
    ensures '0' <= HexDigit(n) <= 'f'
  {
  }

  /** Whatever the names hold, a value's text is printable ASCII: nothing is decoded but escapes. */
  lemma {:induction false} PrintIsAscii(j: Json)
    requires IsJson(j)
    ensures IsAscii(Print(j))
    decreases j, 1
  {
    match j
    case JNull =>
    case JNumber(_) =>
    case JString(s) =>
      BodyIsAscii(s);
    case JArray(items) =>
      ItemsAreAscii(items);
    case JObject(members) =>
      MembersAreAscii(members);
  }

  lemma {:induction false} ItemsAreAscii(items: seq<Json>)
    requires forall i :: 0 <= i < |items| ==> IsJson(items[i])
    ensures IsAscii(PrintItems(items))
    decreases items, 0
  {
    if items != [] {
      PrintIsAscii(items[0]);
      ItemsAreAscii(items[1..]);
    }
  }

  lemma {:induction false} MembersAreAscii(members: seq<Member>)
    requires forall i :: 0 <= i < |members| ==> IsJson(members[i].value)
    ensures IsAscii(PrintMembers(members))
    decreases members, 0
  {
    if members != [] {
      BodyIsAscii(members[0].name);
      PrintIsAscii(members[0].value);
      MembersAreAscii(members[1..]);
    }
  }
}
