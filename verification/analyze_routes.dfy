/** The analysis routes of the front-end server that compute something:
    the default query of the news-aggregate listing, and the fixed
    confirmations of field unlocking and report-item deletion. */
module AnalyzeRoutes {
  import opened Text
  import opened JsonData
  import opened Upstream

  /** The parameters the news-aggregate listing sends, with their defaults.
      Query arguments arrive as text; the two numeric defaults are sent as
      integers. */
  const NewsAggregateDefaults: map<string, Json> :=
    map["search" := JStr(""), "read" := JStr("false"), "important" := JStr("false"),
        "relevant" := JStr("false"), "in_analyze" := JStr("false"), "range" := JStr("ALL"),
        "sort" := JStr("DATE_DESC"), "offset" := JInt(0), "limit" := JInt(20)]

  /** `request.args.get(k, default)` for each known parameter. */
  function NewsAggregateParams(args: map<string, string>): (p: map<string, Json>)
    ensures p.Keys == NewsAggregateDefaults.Keys
    ensures forall k :: k in p && k in args ==> p[k] == JStr(args[k])
    ensures forall k :: k in p && k !in args ==> p[k] == NewsAggregateDefaults[k]
  {
    map k | k in NewsAggregateDefaults :: if k in args then JStr(args[k]) else NewsAggregateDefaults[k]
  }

  /** With no arguments, the defaults are sent. */
  lemma NoArgsSendDefaults()
    ensures NewsAggregateParams(map[]) == NewsAggregateDefaults
  {
  }

  /** Arguments other than the nine known ones are dropped: only the known
      arguments decide the query. */
  lemma UnknownArgsIgnored(args: map<string, string>, extra: string, v: string)
    requires extra !in NewsAggregateDefaults
    ensures NewsAggregateParams(args[extra := v]) == NewsAggregateParams(args)
  {
  }

  /** `unlock_field`: a message naming the field, with the upstream status. */
  function UnlockField(field: string, res: Resp): (o: Outcome)
    ensures o.Reply? && o.status == res.status
    ensures o.body == MessageBody("Field '" + field + "' unlocked.")
  {
    FixedReply(res, MessageBody("Field '" + field + "' unlocked."))
  }

  /** Different fields give different messages, and the message contains
      the field's name. */
  lemma UnlockMessageNamesField(f1: string, f2: string, res: Resp)
    ensures Contains(UnlockField(f1, res).body.fields["message"].s, f1)
    ensures UnlockField(f1, res) == UnlockField(f2, res) ==> f1 == f2
  {
    var m1 := "Field '" + f1 + "' unlocked.";
    assert f1 <= m1[7..];
    if UnlockField(f1, res) == UnlockField(f2, res) {
      var m2 := "Field '" + f2 + "' unlocked.";
      assert m1 == m2;
      assert |f1| == |f2|;
      assert f1 == m1[7..7 + |f1|];
      assert f2 == m2[7..7 + |f2|];
    }
  }

  /** `delete_report_item`. */
  function DeleteReportItem(res: Resp): (o: Outcome)
    ensures o == Reply(res.status, MessageBody("Report item deleted successfully"))
  {
    FixedReply(res, MessageBody("Report item deleted successfully"))
  }
}
