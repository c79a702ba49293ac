/**
 * The bodies and query strings the story endpoints declare: `CreateStoryDto`,
 * `UpdateStoryDto` and `QueryStoryDto`, with their `@Type(() => Number)`
 * conversions and property initializers.
 */
module StoryDto {
  import opened Common
  import opened Validation

  /** The values of the `StoryStatus` enumeration, as the front end's story
      type lists them (frontend/types/story.ts:10). */
  const StoryStatuses: set<string> := {"ONGOING", "COMPLETED", "HIATUS"}

  const CreateTitle: seq<Rule> := [IsString, IsNotEmpty, MinLength(3), MaxLength(200)]
  const CreateDescription: seq<Rule> := [IsString, IsNotEmpty, MinLength(10), MaxLength(2000)]
  const CoverImage: seq<Rule> := [IsOptional, IsUrl]
  const Status: seq<Rule> := [IsEnum(StoryStatuses), IsOptional]
  const CreateGenre: seq<Rule> := [IsInt]

  const CreateStoryDto: Schema := [
    ("title", CreateTitle),
    ("description", CreateDescription),
    ("coverImage", CoverImage),
    ("status", Status),
    ("genreId", CreateGenre)
  ]

  const UpdateTitle: seq<Rule> := [IsString, IsOptional, MinLength(3), MaxLength(200)]
  const UpdateDescription: seq<Rule> := [IsString, IsOptional, MinLength(10), MaxLength(2000)]
  const UpdateGenre: seq<Rule> := [IsInt, IsOptional]

  const UpdateStoryDto: Schema := [
    ("title", UpdateTitle),
    ("description", UpdateDescription),
    ("coverImage", CoverImage),
    ("status", Status),
    ("genreId", UpdateGenre)
  ]

  const QueryNumber: seq<Rule> := [IsOptional, IsInt]
  const QuerySearch: seq<Rule> := [IsOptional, IsString]

  const QueryStoryDto: Schema := [
    ("page", QueryNumber),
    ("limit", QueryNumber),
    ("search", QuerySearch),
    ("genreId", QueryNumber)
  ]

  /** What class-transformer builds from a create body: `genreId` converted
      to a number, `status` ONGOING unless the body carries one. */
  function PrepareCreate(body: Body, parse: string -> Option<real>): Body {
    WithDefault(Convert(body, "genreId", parse), "status", Str("ONGOING"))
  }

  function PrepareUpdate(body: Body, parse: string -> Option<real>): Body {
    Convert(body, "genreId", parse)
  }

  /** What class-transformer builds from a query string: the three numeric
      parameters converted, `page` 1 and `limit` 20 unless given. */
  function PrepareQuery(query: Body, parse: string -> Option<real>): Body {
    var converted := Convert(Convert(Convert(query, "page", parse), "limit", parse), "genreId", parse);
    WithDefault(WithDefault(converted, "page", Num(1.0)), "limit", Num(20.0))
  }

  predicate NoValue(v: Value) { v == Absent || v == Null }

  predicate TitleOk(v: Value) { v.Str? && 3 <= Length(v.s) <= 200 }

  predicate DescriptionOk(v: Value) { v.Str? && 10 <= Length(v.s) <= 2000 }

  predicate CoverImageOk(v: Value, oracles: Oracles) { NoValue(v) || (v.Str? && oracles.isUrl(v.s)) }

  predicate StatusOk(v: Value) { NoValue(v) || (v.Str? && v.s in StoryStatuses) }

  lemma TitleExactly(v: Value, oracles: Oracles)
    ensures ValidProperty(CreateTitle, v, oracles) <==> TitleOk(v)
    ensures ValidProperty(UpdateTitle, v, oracles) <==> NoValue(v) || TitleOk(v)
  {
    if ValidProperty(CreateTitle, v, oracles) {
      assert IsOptional !in CreateTitle;
      assert Check(CreateTitle[2], v, oracles) && Check(CreateTitle[3], v, oracles);
    }
    if ValidProperty(UpdateTitle, v, oracles) && !NoValue(v) {
      assert Check(UpdateTitle[2], v, oracles) && Check(UpdateTitle[3], v, oracles);
    }
  }

  lemma DescriptionExactly(v: Value, oracles: Oracles)
    ensures ValidProperty(CreateDescription, v, oracles) <==> DescriptionOk(v)
    ensures ValidProperty(UpdateDescription, v, oracles) <==> NoValue(v) || DescriptionOk(v)
  {
    if ValidProperty(CreateDescription, v, oracles) {
      assert IsOptional !in CreateDescription;
      assert Check(CreateDescription[2], v, oracles) && Check(CreateDescription[3], v, oracles);
    }
    if ValidProperty(UpdateDescription, v, oracles) && !NoValue(v) {
      assert Check(UpdateDescription[2], v, oracles) && Check(UpdateDescription[3], v, oracles);
    }
  }

  lemma CoverImageExactly(v: Value, oracles: Oracles)
    ensures ValidProperty(CoverImage, v, oracles) <==> CoverImageOk(v, oracles)
  {
    if ValidProperty(CoverImage, v, oracles) && !NoValue(v) {
      assert Check(CoverImage[1], v, oracles);
    }
  }

  lemma StatusExactly(v: Value, oracles: Oracles)
    ensures ValidProperty(Status, v, oracles) <==> StatusOk(v)
  {
    if ValidProperty(Status, v, oracles) && !NoValue(v) {
      assert Check(Status[0], v, oracles);
    }
  }

  lemma GenreExactly(v: Value, oracles: Oracles)
    ensures ValidProperty(CreateGenre, v, oracles) <==> IsInteger(v)
    ensures ValidProperty(UpdateGenre, v, oracles) <==> NoValue(v) || IsInteger(v)
    ensures ValidProperty(QueryNumber, v, oracles) <==> NoValue(v) || IsInteger(v)
  {
    if ValidProperty(CreateGenre, v, oracles) {
      assert IsOptional !in CreateGenre;
      assert Check(CreateGenre[0], v, oracles);
    }
    if ValidProperty(UpdateGenre, v, oracles) && !NoValue(v) {
      assert Check(UpdateGenre[0], v, oracles);
    }
    if ValidProperty(QueryNumber, v, oracles) && !NoValue(v) {
      assert Check(QueryNumber[1], v, oracles);
    }
  }

  lemma SearchExactly(v: Value, oracles: Oracles)
    ensures ValidProperty(QuerySearch, v, oracles) <==> NoValue(v) || v.Str?
  {
    if ValidProperty(QuerySearch, v, oracles) && !NoValue(v) {
      assert Check(QuerySearch[1], v, oracles);
    }
  }

  /** A create body is accepted exactly when the title has 3 to 200
      characters, the description 10 to 2000, the cover image is missing or
      a URL, the status is missing or a known status, and the genre id
      converts to an integer. */
  lemma CreateAcceptedExactly(body: Body, parse: string -> Option<real>, oracles: Oracles)
    ensures ValidBody(CreateStoryDto, PrepareCreate(body, parse), oracles) <==>
      TitleOk(Get(body, "title")) && DescriptionOk(Get(body, "description")) &&
      CoverImageOk(Get(body, "coverImage"), oracles) && StatusOk(Get(body, "status")) &&
      IsInteger(ToNumber(Get(body, "genreId"), parse))
  {
    var schema, b := CreateStoryDto, PrepareCreate(body, parse);
    TitleExactly(Get(b, "title"), oracles);
    DescriptionExactly(Get(b, "description"), oracles);
    CoverImageExactly(Get(b, "coverImage"), oracles);
    StatusExactly(Get(b, "status"), oracles);
    GenreExactly(Get(b, "genreId"), oracles);
    if ValidBody(schema, b, oracles) {
      assert ValidProperty(schema[0].1, Get(b, schema[0].0), oracles);
      assert ValidProperty(schema[1].1, Get(b, schema[1].0), oracles);
      assert ValidProperty(schema[2].1, Get(b, schema[2].0), oracles);
      assert ValidProperty(schema[3].1, Get(b, schema[3].0), oracles);
      assert ValidProperty(schema[4].1, Get(b, schema[4].0), oracles);
    } else {
      var i :| 0 <= i < |schema| && !ValidProperty(schema[i].1, Get(b, schema[i].0), oracles);
      assert i == 0 || i == 1 || i == 2 || i == 3 || i == 4;
    }
  }

  /** A create body without a status is stored as ONGOING; one that carries a
      status, even `null`, keeps it. */
  lemma CreateDefaultsStatus(body: Body, parse: string -> Option<real>)
    ensures "status" !in body ==> Get(PrepareCreate(body, parse), "status") == Str("ONGOING")
    ensures "status" in body ==> Get(PrepareCreate(body, parse), "status") == body["status"]
  {
  }

  /** An update body is accepted exactly when every property it carries
      meets the create bounds; any of them may be left out. */
  lemma UpdateAcceptedExactly(body: Body, parse: string -> Option<real>, oracles: Oracles)
    ensures ValidBody(UpdateStoryDto, PrepareUpdate(body, parse), oracles) <==>
      (NoValue(Get(body, "title")) || TitleOk(Get(body, "title"))) &&
      (NoValue(Get(body, "description")) || DescriptionOk(Get(body, "description"))) &&
      CoverImageOk(Get(body, "coverImage"), oracles) && StatusOk(Get(body, "status")) &&
      (NoValue(Get(body, "genreId")) || IsInteger(ToNumber(Get(body, "genreId"), parse)))
  {
    var schema, b := UpdateStoryDto, PrepareUpdate(body, parse);
    TitleExactly(Get(b, "title"), oracles);
    DescriptionExactly(Get(b, "description"), oracles);
    CoverImageExactly(Get(b, "coverImage"), oracles);
    StatusExactly(Get(b, "status"), oracles);
    GenreExactly(Get(b, "genreId"), oracles);
    if ValidBody(schema, b, oracles) {
      assert ValidProperty(schema[0].1, Get(b, schema[0].0), oracles);
      assert ValidProperty(schema[1].1, Get(b, schema[1].0), oracles);
      assert ValidProperty(schema[2].1, Get(b, schema[2].0), oracles);
      assert ValidProperty(schema[3].1, Get(b, schema[3].0), oracles);
      assert ValidProperty(schema[4].1, Get(b, schema[4].0), oracles);
    } else {
      var i :| 0 <= i < |schema| && !ValidProperty(schema[i].1, Get(b, schema[i].0), oracles);
      assert i == 0 || i == 1 || i == 2 || i == 3 || i == 4;
    }
  }

  /** Leaving everything out of an update is accepted. */
  lemma EmptyUpdateAccepted(parse: string -> Option<real>, oracles: Oracles)
    ensures ValidBody(UpdateStoryDto, PrepareUpdate(map[], parse), oracles)
  {
    UpdateAcceptedExactly(map[], parse, oracles);
  }

  /** A query is accepted exactly when each numeric parameter it carries
      converts to an integer (or is null) and the search text, if any, is
      text. */
  lemma QueryAcceptedExactly(query: Body, parse: string -> Option<real>, oracles: Oracles)
    ensures ValidBody(QueryStoryDto, PrepareQuery(query, parse), oracles) <==>
      (NoValue(ToNumber(Get(query, "page"), parse)) || IsInteger(ToNumber(Get(query, "page"), parse))) &&
      (NoValue(ToNumber(Get(query, "limit"), parse)) || IsInteger(ToNumber(Get(query, "limit"), parse))) &&
      (NoValue(Get(query, "search")) || Get(query, "search").Str?) &&
      (NoValue(ToNumber(Get(query, "genreId"), parse)) || IsInteger(ToNumber(Get(query, "genreId"), parse)))
  {
    var schema, b := QueryStoryDto, PrepareQuery(query, parse);
    assert Get(b, "search") == Get(query, "search");
    assert Get(b, "genreId") == ToNumber(Get(query, "genreId"), parse);
    GenreExactly(Get(b, "page"), oracles);
    GenreExactly(Get(b, "limit"), oracles);
    GenreExactly(Get(b, "genreId"), oracles);
    SearchExactly(Get(b, "search"), oracles);
    if ValidBody(schema, b, oracles) {
      assert ValidProperty(schema[0].1, Get(b, schema[0].0), oracles);
      assert ValidProperty(schema[1].1, Get(b, schema[1].0), oracles);
      assert ValidProperty(schema[2].1, Get(b, schema[2].0), oracles);
      assert ValidProperty(schema[3].1, Get(b, schema[3].0), oracles);
    } else {
      var i :| 0 <= i < |schema| && !ValidProperty(schema[i].1, Get(b, schema[i].0), oracles);
      assert i == 0 || i == 1 || i == 2 || i == 3;
    }
  }

  /** A query without `page` and `limit` asks for page 1 of 20. */
  lemma QueryDefaults(query: Body, parse: string -> Option<real>)
    requires "page" !in query && "limit" !in query
    ensures Get(PrepareQuery(query, parse), "page") == Num(1.0)
    ensures Get(PrepareQuery(query, parse), "limit") == Num(20.0)
  {
  }

  /** Nothing bounds `page` or `limit` from below: page 0 and a negative
      limit pass validation, while a fractional page does not. */
  lemma QueryBounds(parse: string -> Option<real>, oracles: Oracles)
    ensures ValidBody(QueryStoryDto, PrepareQuery(map["page" := Num(0.0), "limit" := Num(-5.0)], parse), oracles)
    ensures !ValidBody(QueryStoryDto, PrepareQuery(map["page" := Num(1.5)], parse), oracles)
  {
    QueryAcceptedExactly(map["page" := Num(0.0), "limit" := Num(-5.0)], parse, oracles);
    QueryAcceptedExactly(map["page" := Num(1.5)], parse, oracles);
  }
}
