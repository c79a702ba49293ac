/** The body of a reading-progress report (`UpdateReadProgressDto`). */
module ReadProgressDto {
  import opened Validation

  const UpdateReadProgressDto: Schema := [
    ("storyId", [IsNumber]),
    ("chapterId", [IsNumber]),
    ("progress", [IsNumber, Min(0.0), Max(100.0)])
  ]

  /** The report is accepted exactly when the story and chapter ids are
      numbers and the progress is a number from 0 to 100 inclusive. */
  lemma AcceptedExactly(body: Body, oracles: Oracles)
    ensures ValidBody(UpdateReadProgressDto, body, oracles) <==>
      Get(body, "storyId").Num? && Get(body, "chapterId").Num? &&
      Get(body, "progress").Num? && 0.0 <= Get(body, "progress").n <= 100.0
  {
    var schema := UpdateReadProgressDto;
    if ValidBody(schema, body, oracles) {
      assert IsOptional !in schema[0].1 && IsOptional !in schema[1].1 && IsOptional !in schema[2].1;
      assert ValidProperty(schema[0].1, Get(body, schema[0].0), oracles);
      assert ValidProperty(schema[1].1, Get(body, schema[1].0), oracles);
      assert ValidProperty(schema[2].1, Get(body, schema[2].0), oracles);
      assert Check(schema[0].1[0], Get(body, "storyId"), oracles);
      assert Check(schema[1].1[0], Get(body, "chapterId"), oracles);
      assert Check(schema[2].1[0], Get(body, "progress"), oracles);
      assert Check(schema[2].1[1], Get(body, "progress"), oracles);
      assert Check(schema[2].1[2], Get(body, "progress"), oracles);
    }
  }

  function ReportWith(progress: Value): Body {
    map["storyId" := Num(7.0), "chapterId" := Num(12.0), "progress" := progress]
  }

  /** Both ends of the range and fractional values are accepted; anything
      below 0 or above 100, and any id that is not a number, is refused. */
  lemma ProgressBoundaries(oracles: Oracles)
    ensures ValidBody(UpdateReadProgressDto, ReportWith(Num(0.0)), oracles)
    ensures ValidBody(UpdateReadProgressDto, ReportWith(Num(100.0)), oracles)
    ensures ValidBody(UpdateReadProgressDto, ReportWith(Num(37.5)), oracles)
    ensures !ValidBody(UpdateReadProgressDto, ReportWith(Num(-0.5)), oracles)
    ensures !ValidBody(UpdateReadProgressDto, ReportWith(Num(100.5)), oracles)
    ensures !ValidBody(UpdateReadProgressDto, ReportWith(Str("50")), oracles)
    ensures !ValidBody(UpdateReadProgressDto, ReportWith(Num(50.0))["storyId" := Str("7")], oracles)
  {
    AcceptedExactly(ReportWith(Num(0.0)), oracles);
    AcceptedExactly(ReportWith(Num(100.0)), oracles);
    AcceptedExactly(ReportWith(Num(37.5)), oracles);
    AcceptedExactly(ReportWith(Num(-0.5)), oracles);
    AcceptedExactly(ReportWith(Num(100.5)), oracles);
    AcceptedExactly(ReportWith(Str("50")), oracles);
    AcceptedExactly(ReportWith(Num(50.0))["storyId" := Str("7")], oracles);
  }
}
