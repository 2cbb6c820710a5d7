/** Writing a run's per-timestep series as one JSON document, one series at a time (`write_json`). */
module Printer {
  import opened Options
  import opened Bytes
  import opened Sequences
  import opened JsonText

  type Series = seq<Number>

  /** A consumer's name and, by member name, its series. */
  datatype Consumer = Consumer(name: string, series: map<string, Series>)

  datatype Iteration = Iteration(number: Number, series: map<string, Series>, consumers: seq<Consumer>)

  const ITERATION_SERIES: seq<string> :=
    ["consumption", "energy_allocated", "energy_allocated_consumed", "residual_volume", "surplus",
     "sharing_rate", "self_sufficiency_rate"]

  const CONSUMER_SERIES: seq<string> :=
    ["consumption", "energy_allocated", "energy_allocated_consumed", "residual_volume", "surplus"]

  // ---- The classes of the result: which members they have ----

  ghost predicate HasSeries(series: map<string, Series>, names: seq<string>) {
    forall i :: 0 <= i < |names| ==>
      names[i] in series && forall k :: 0 <= k < |series[names[i]]| ==> IsNumber(series[names[i]][k])
  }

  ghost predicate IsConsumer(c: Consumer) {
    HasSeries(c.series, CONSUMER_SERIES)
  }

  /** The text of a Python `int`. */
  predicate IsIntegerText(s: bytes) {
    var digits := if s != [] && s[0] == '-' then s[1..] else s;
    digits != [] && forall i :: 0 <= i < |digits| ==> '0' <= digits[i] <= '9'
  }

  ghost predicate IsIteration(it: Iteration) {
    && it.number.Finite? && IsIntegerText(it.number.text)
    && HasSeries(it.series, ITERATION_SERIES)
    && forall i :: 0 <= i < |it.consumers| ==> IsConsumer(it.consumers[i])
  }

  ghost predicate IsResult(result: seq<Iteration>) {
    forall i :: 0 <= i < |result| ==> IsIteration(result[i])
  }

  // ---- Reference: the payload as one value ----

  function SeriesJson(values: Series): Json {
    JArray(seq(|values|, i requires 0 <= i < |values| => JNumber(values[i])))
  }

  function SeriesMembers(series: map<string, Series>, names: seq<string>): seq<Member>
    requires forall i :: 0 <= i < |names| ==> names[i] in series
  {
    seq(|names|, i requires 0 <= i < |names| => Member(names[i], SeriesJson(series[names[i]])))
  }

  function ConsumerMembers(c: Consumer): seq<Member>
    requires IsConsumer(c)
  {
    [Member("name", JString(c.name))] + SeriesMembers(c.series, CONSUMER_SERIES)
  }

  function ConsumersJson(consumers: seq<Consumer>): seq<Json>
    requires forall i :: 0 <= i < |consumers| ==> IsConsumer(consumers[i])
  {
    seq(|consumers|, i requires 0 <= i < |consumers| => JObject(ConsumerMembers(consumers[i])))
  }

  function IterationMembers(it: Iteration): seq<Member>
    requires IsIteration(it)
  {
    [Member("number", JNumber(it.number))] + SeriesMembers(it.series, ITERATION_SERIES)
      + [Member("consumers", JArray(ConsumersJson(it.consumers)))]
  }

  function IterationsJson(result: seq<Iteration>): seq<Json>
    requires IsResult(result)
  {
    seq(|result|, i requires 0 <= i < |result| => JObject(IterationMembers(result[i])))
  }

  function Payload(result: seq<Iteration>): Json
    requires IsResult(result)
  {
    JObject([Member("iterations", JArray(IterationsJson(result)))])
  }

  lemma PayloadIsJson(result: seq<Iteration>)
    requires IsResult(result)
    ensures IsJson(Payload(result))
  {
    forall i | 0 <= i < |result| ensures IsJson(IterationsJson(result)[i]) {
      var it := result[i];
      IntegerIsNumber(it.number.text);
      forall k | 0 <= k < |IterationMembers(it)| ensures IsJson(IterationMembers(it)[k].value) {
        if k == |IterationMembers(it)| - 1 {
          ConsumersAreJson(it.consumers);
        } else if k > 0 {
          SeriesAreJson(it.series, ITERATION_SERIES, k - 1);
        }
      }
    }
  }

  lemma IntegerIsNumber(s: bytes)
    requires IsIntegerText(s)
    ensures IsNumberText(s)
  {
    if s[0] == '-' {
      assert s == [s[0]] + s[1..];
    }
  }

  lemma SeriesAreJson(series: map<string, Series>, names: seq<string>, k: nat)
    requires HasSeries(series, names) && k < |names|
    ensures IsJson(SeriesMembers(series, names)[k].value)
  {
    var values := series[names[k]];
    forall i | 0 <= i < |values| ensures IsJson(JNumber(values[i])) {}
  }

  lemma ConsumersAreJson(consumers: seq<Consumer>)
    requires forall i :: 0 <= i < |consumers| ==> IsConsumer(consumers[i])
    ensures IsJson(JArray(ConsumersJson(consumers)))
  {
    forall i | 0 <= i < |consumers| ensures IsJson(ConsumersJson(consumers)[i]) {
      var c := consumers[i];
      forall k | 0 <= k < |ConsumerMembers(c)| ensures IsJson(ConsumerMembers(c)[k].value) {
        if k > 0 {
          SeriesAreJson(c.series, CONSUMER_SERIES, k - 1);
        }
      }
    }
  }

  // ---- The writer ----

  /** The output stream: what has been written to it. */
  class Sink {
    var data: bytes

    constructor ()
      ensures data == []
    {
      data := [];
    }

    method Write(text: bytes)
      modifies this
      ensures data == old(data) + text
    {
      data := data + text;
    }
  }

  /** `_write_member` */
  method WriteMember(out: Sink, name: string, values: Series)
    modifies out
    ensures out.data == old(out.data) + (", " + PrintMember(Member(name, SeriesJson(values))))
  {
    out.Write(", " + EncodeString(name) + ": " + Print(SeriesJson(values)));
    Assoc(", ", EncodeString(name) + ": ", Print(SeriesJson(values)));
    Assoc(", ", EncodeString(name), ": ");
  }

  /** The series members of one object, after a first member already written. */
  method WriteSeries(out: Sink, ghost before: bytes, ghost first: Member, series: map<string, Series>,
        names: seq<string>)
    requires forall i :: 0 <= i < |names| ==> names[i] in series
    requires out.data == before + PrintMembers([first])
    modifies out
    ensures out.data == before + PrintMembers([first] + SeriesMembers(series, names))
  {
    hide Print, PrintMembers, PrintMember;
    assert [first] + SeriesMembers(series, names[..0]) == [first];
    for k := 0 to |names|
      invariant out.data == before + PrintMembers([first] + SeriesMembers(series, names[..k]))
    {
      ghost var members := [first] + SeriesMembers(series, names[..k]);
      ghost var member := Member(names[k], SeriesJson(series[names[k]]));
      WriteMember(out, names[k], series[names[k]]);
      PrintMembersSnoc(members, member);
      AssocThree(before, PrintMembers(members), ", ", PrintMember(member));
      Assoc(before + PrintMembers(members), ", ", PrintMember(member));
      assert [first] + SeriesMembers(series, names[..k + 1]) == members + [member];
    }
    assert names[..|names|] == names;
  }

  method WriteConsumer(out: Sink, c: Consumer)
    requires IsConsumer(c)
    modifies out
    ensures out.data == old(out.data) + Print(JObject(ConsumerMembers(c)))
  {
    ghost var before := out.data;
    ghost var first := Member("name", JString(c.name));
    out.Write("{\"name\": " + EncodeString(c.name));
    NameText();
    FirstMember(before, "{\"name\": ", first);
    WriteSeries(out, before + "{", first, c.series, CONSUMER_SERIES);
    out.Write("}");
    AssocThree(before, "{", PrintMembers(ConsumerMembers(c)), "}");
    Assoc(before, "{", PrintMembers(ConsumerMembers(c)));
  }

  method WriteConsumers(out: Sink, ghost before: bytes, consumers: seq<Consumer>)
    requires forall i :: 0 <= i < |consumers| ==> IsConsumer(consumers[i])
    requires out.data == before
    modifies out
    ensures out.data == before + PrintItems(ConsumersJson(consumers))
  {
    hide Print, PrintItems, IsConsumer, ConsumersJson;
    NothingPrinted(before, consumers);
    for position := 0 to |consumers|
      invariant out.data == before + PrintItems(ConsumersJson(consumers[..position]))
    {
      ghost var items := ConsumersJson(consumers[..position]);
      ghost var item := JObject(ConsumerMembers(consumers[position]));
      ConsumersSnoc(consumers, position);
      if position > 0 {
        out.Write(", ");
      }
      WriteConsumer(out, consumers[position]);
      PrintItemsSnoc(items, item);
      AssocThree(before, PrintItems(items), ", ", Print(item));
      Assoc(before, PrintItems(items), ", ");
      Assoc(before, PrintItems(items), Print(item));
    }
    assert consumers[..|consumers|] == consumers;
  }

  lemma NothingPrinted(before: bytes, consumers: seq<Consumer>)
    ensures before == before + PrintItems(ConsumersJson(consumers[..0]))
  {
    assert ConsumersJson(consumers[..0]) == [];
    NothingAfter(before);
  }

  lemma ConsumersSnoc(consumers: seq<Consumer>, k: nat)
    requires k < |consumers| && forall i :: 0 <= i < |consumers| ==> IsConsumer(consumers[i])
    ensures ConsumersJson(consumers[..k + 1]) ==
            ConsumersJson(consumers[..k]) + [JObject(ConsumerMembers(consumers[k]))]
    ensures |ConsumersJson(consumers[..k])| == k
  {
  }

  lemma PrintNumber(n: Number)
    ensures Print(JNumber(n)) == EncodeNumber(n)
  {
  }

  method WriteIteration(out: Sink, it: Iteration)
    requires IsIteration(it)
    modifies out
    ensures out.data == old(out.data) + Print(JObject(IterationMembers(it)))
  {
    hide Print, PrintItems, PrintMembers, EncodeNumber, EncodeString;
    ghost var before := out.data;
    ghost var first := Member("number", JNumber(it.number));
    ghost var members := [first] + SeriesMembers(it.series, ITERATION_SERIES);
    ghost var last := Member("consumers", JArray(ConsumersJson(it.consumers)));
    out.Write("{\"number\": " + EncodeNumber(it.number));
    NumberText();
    PrintNumber(it.number);
    FirstMember(before, "{\"number\": ", first);
    WriteSeries(out, before + "{", first, it.series, ITERATION_SERIES);
    out.Write(", \"consumers\": [");
    WriteConsumers(out, out.data, it.consumers);
    out.Write("]}");
    ConsumersText(ConsumersJson(it.consumers));
    ObjectText(before, members, last, PrintItems(ConsumersJson(it.consumers)));
  }

  /** Letters, digits, spaces and underscores are written as they are. */
  lemma {:induction false} EncodePlain(name: string)
    requires forall i :: 0 <= i < |name| ==> 'a' <= name[i] <= 'z' || name[i] == '_'
    ensures EncodeBody(name) == name
  {
    if name != [] {
      EncodePlain(name[1..]);
      assert name == [name[0]] + name[1..];
    }
  }

  lemma Literals()
    ensures "{\"name\": " == "{" + ("\"" + "name" + "\"" + ": ")
    ensures "{\"number\": " == "{" + ("\"" + "number" + "\"" + ": ")
    ensures ", \"consumers\": [" == ", " + ("\"" + "consumers" + "\"" + ": " + "[")
    ensures "{\"iterations\": [" == "{" + ("\"" + "iterations" + "\"" + ": " + "[")
    ensures "]}" == "]" + "}"
  {
  }

  lemma NameText()
    ensures "{\"name\": " == "{" + (EncodeString("name") + ": ")
  {
    EncodePlain("name");
    Literals();
  }

  lemma NumberText()
    ensures "{\"number\": " == "{" + (EncodeString("number") + ": ")
  {
    EncodePlain("number");
    Literals();
  }

  lemma ConsumersKeyText()
    ensures ", \"consumers\": [" == ", " + (EncodeString("consumers") + ": " + "[")
  {
    EncodePlain("consumers");
    Literals();
  }

  lemma IterationsKeyText()
    ensures "{\"iterations\": [" == "{" + (EncodeString("iterations") + ": " + "[")
  {
    EncodePlain("iterations");
    Literals();
  }

  lemma FirstMember(before: bytes, key: bytes, first: Member)
    requires key == "{" + (EncodeString(first.name) + ": ")
    ensures before + (key + Print(first.value)) == before + "{" + PrintMembers([first])
  {
    Assoc("{", EncodeString(first.name) + ": ", Print(first.value));
    Assoc(before, "{", PrintMembers([first]));
  }

  lemma ConsumersText(items: seq<Json>)
    ensures ", \"consumers\": [" + PrintItems(items) + "]" == ", " + PrintMember(Member("consumers", JArray(items)))
  {
    ConsumersKeyText();
    Bracketed(", ", EncodeString("consumers") + ": ", "[", PrintItems(items), "]");
  }

  lemma Bracketed(a: bytes, b: bytes, c: bytes, d: bytes, e: bytes)
    ensures a + (b + c) + d + e == a + (b + (c + d + e))
  {
  }

  lemma ObjectText(before: bytes, members: seq<Member>, last: Member, items: bytes)
    requires last.value.JArray? && members != []
    requires ", \"consumers\": [" + items + "]" == ", " + PrintMember(last)
    ensures before + "{" + PrintMembers(members) + ", \"consumers\": [" + items + "]}" ==
        before + Print(JObject(members + [last]))
  {
    PrintMembersSnoc(members, last);
    Literals();
    Regroup(before, "{", PrintMembers(members), ", \"consumers\": [", items, "]", "}");
    Assoc(PrintMembers(members), ", ", PrintMember(last));
  }

  lemma Regroup(a: bytes, b: bytes, c: bytes, d: bytes, e: bytes, f: bytes, g: bytes)
    ensures a + b + c + d + e + (f + g) == a + (b + (c + (d + e + f)) + g)
  {
  }

  /** The bytes written piecewise are those of one `json.dumps` of the whole payload. */
  method WriteJson(result: seq<Iteration>, out: Sink)
    requires IsResult(result)
    modifies out
    ensures out.data == old(out.data) + Print(Payload(result))
  {
    hide Print, IsIteration;
    ghost var before := out.data;
    out.Write("{\"iterations\": [");
    for index := 0 to |result|
      invariant out.data == before + "{\"iterations\": [" + PrintItems(IterationsJson(result[..index]))
    {
      ghost var items := IterationsJson(result[..index]);
      ghost var item := JObject(IterationMembers(result[index]));
      if index > 0 {
        out.Write(", ");
      }
      WriteIteration(out, result[index]);
      PrintItemsSnoc(items, item);
      AssocThree(before + "{\"iterations\": [", PrintItems(items), ", ", Print(item));
      Assoc(before + "{\"iterations\": [", PrintItems(items), ", ");
      assert IterationsJson(result[..index + 1]) == items + [item];
    }
    assert result[..|result|] == result;
    out.Write("]}");
    DocumentText(before, PrintItems(IterationsJson(result)));
    PayloadText(result);
  }

  lemma DocumentText(before: bytes, items: bytes)
    ensures before + "{\"iterations\": [" + items + "]}" == before + ("{\"iterations\": [" + items + "]}")
  {
  }

  lemma ObjectOfOneArray(name: string, items: seq<Json>)
    ensures Print(JObject([Member(name, JArray(items))])) ==
            "{" + (EncodeString(name) + ": " + ("[" + PrintItems(items) + "]")) + "}"
  {
    var members := [Member(name, JArray(items))];
    assert PrintMembers(members) == PrintMember(members[0]);
  }

  lemma PayloadText(result: seq<Iteration>)
    requires IsResult(result)
    ensures Print(Payload(result)) == "{\"iterations\": [" + PrintItems(IterationsJson(result)) + "]}"
  {
    ObjectOfOneArray("iterations", IterationsJson(result));
    Brackets(EncodeString("iterations") + ": ", PrintItems(IterationsJson(result)));
  }

  lemma Brackets(key: bytes, items: bytes)
    requires key == EncodeString("iterations") + ": "
    ensures "{\"iterations\": [" + items + "]}" == "{" + (key + ("[" + items + "]")) + "}"
  {
    IterationsKeyText();
    Literals();
    Nested("{", key, "[", items, "]", "}");
  }

  lemma Nested(a: bytes, b: bytes, c: bytes, d: bytes, e: bytes, f: bytes)
    ensures a + (b + c) + d + (e + f) == a + (b + (c + d + e)) + f
  {
  }
}
