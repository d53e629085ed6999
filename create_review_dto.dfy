/** The field constraints of the creation payload (`CreateReviewDto`), checked
    by the validation pipe before `create` runs, and the typed value that the
    pipe hands to the service once they hold. */
module CreateReviewDto {
  import opened Values

  /** The raw payload of a `createReview` message, one value per declared field. */
  datatype CreateReviewPayload = CreateReviewPayload(
    userId: JsValue,
    productId: JsValue,
    rating: JsValue,
    comment: JsValue)

  /** The payload once validated: what `ReviewsService.create` receives. */
  datatype CreateReviewDto = CreateReviewDto(
    userId: string,
    productId: int,
    rating: int,
    comment: Option<string>)

  // One predicate per validation decorator used on the class.

  /** `@IsString()` */
  predicate IsString(v: JsValue) { v.Str? }

  /** `@IsNotEmpty()`: anything but "", null and undefined. */
  predicate IsNotEmpty(v: JsValue) { v != Str("") && v != Null && v != Undefined }

  /** `@IsNumber()` (on integers only, see Values.JsValue) */
  predicate IsNumber(v: JsValue) { v.Num? }

  /** `@IsInt()` */
  predicate IsInt(v: JsValue) { v.Num? }

  /** `@Min(bound)`: a number no smaller than `bound`. */
  predicate Min(v: JsValue, bound: int) { v.Num? && v.n >= bound }

  /** `@Max(bound)`: a number no larger than `bound`. */
  predicate Max(v: JsValue, bound: int) { v.Num? && v.n <= bound }

  /** `@IsOptional()`: null and undefined skip every other check of the property. */
  predicate IsOptional(v: JsValue) { v == Null || v == Undefined }

  /** All constraints of the payload, property by property, as declared. */
  predicate IsValid(p: CreateReviewPayload)
  {
    && IsString(p.userId) && IsNotEmpty(p.userId)
    && IsNumber(p.productId) && IsNotEmpty(p.productId)
    && IsInt(p.rating) && IsNotEmpty(p.rating) && Min(p.rating, 1) && Max(p.rating, 5)
    && (IsOptional(p.comment) || IsString(p.comment))
  }

  /** What every validated DTO satisfies; the service may rely on it. */
  predicate WellFormed(dto: CreateReviewDto)
  {
    dto.userId != "" && 1 <= dto.rating <= 5
  }

  /** The validation pipe: a payload becomes a DTO exactly when it is valid,
      and the DTO carries the payload's values (a null comment is absent). */
  function Validate(p: CreateReviewPayload): (r: Option<CreateReviewDto>)
    ensures r.Some? <==> IsValid(p)
    ensures r.Some? ==> WellFormed(r.value)
    ensures r.Some? ==> && p.userId == Str(r.value.userId)
                        && p.productId == Num(r.value.productId)
                        && p.rating == Num(r.value.rating)
                        && (r.value.comment.None? <==> p.comment in {Null, Undefined})
                        && (r.value.comment.Some? ==> p.comment == Str(r.value.comment.value))
  {
    if IsValid(p) then
      Some(CreateReviewDto(
        p.userId.s,
        p.productId.n,
        p.rating.n,
        if p.comment.Str? then Some(p.comment.s) else None))
    else
      None
  }

  /** The payload a client sends for a given DTO (an absent comment is left undefined). */
  function ToPayload(dto: CreateReviewDto): (p: CreateReviewPayload)
    ensures p.userId.Str? && p.productId.Num? && p.rating.Num?
    ensures p.comment.Undefined? <==> dto.comment.None?
  {
    CreateReviewPayload(
      Str(dto.userId),
      Num(dto.productId),
      Num(dto.rating),
      match dto.comment
      case None => Undefined
      case Some(c) => Str(c))
  }

  /** Sending a DTO and validating it gives the DTO back exactly when the DTO
      is well formed; otherwise the pipe rejects it. */
  lemma ValidateToPayload(dto: CreateReviewDto)
    ensures WellFormed(dto) ==> Validate(ToPayload(dto)) == Some(dto)
    ensures !WellFormed(dto) ==> Validate(ToPayload(dto)) == None
  {
  }

  /** Validation loses nothing but the difference between a null and an
      undefined comment. */
  lemma ToPayloadValidate(p: CreateReviewPayload)
    requires IsValid(p)
    ensures ToPayload(Validate(p).value) == p.(comment := if p.comment == Null then Undefined else p.comment)
  {
  }

  /** The constraints, restated per field in plain terms. */
  lemma IsValidFieldByField(p: CreateReviewPayload)
    ensures IsValid(p) <==>
      && (p.userId.Str? && p.userId.s != "")
      && p.productId.Num?
      && (p.rating.Num? && 1 <= p.rating.n <= 5)
      && (p.comment.Undefined? || p.comment.Null? || p.comment.Str?)
  {
  }
}
