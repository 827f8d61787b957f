/** The express-validator chains `createPostValidation` and
    `updatePostValidation`. `.optional()` skips a rule only for a field that
    is absent (`undefined`); an explicit `null` is checked, and fails. No
    route applies these chains. */
module PostValidator {
  import opened Wrappers
  import opened ValidationChain
  import opened PostController

  /** The `withMessage` texts of the two chains, one constructor each. */
  datatype PostMessage = TitleRequired | ContentRequired | TitleEmpty | ContentEmpty
  {
    function Text(): string {
      match this
      case TitleRequired => "Title is required"
      case ContentRequired => "Content is required"
      case TitleEmpty => "Title cannot be empty"
      case ContentEmpty => "Content cannot be empty"
    }
  }

  /** `.optional().notEmpty()`. */
  predicate OptionalNotEmpty(f: Field<string>) {
    f.Absent? || NotEmpty(f)
  }

  /** The rules of `createPostValidation`, in chain order. */
  const CREATE_POST_RULES: seq<PostMessage> := [TitleRequired, ContentRequired]

  predicate CreatePostRuleFails(b: PostBody, m: PostMessage) {
    match m
    case TitleRequired => !NotEmpty(b.title)
    case ContentRequired => !NotEmpty(b.content)
    case _ => false
  }

  /** The messages `createPostValidation` collects. */
  function CreatePostErrors(b: PostBody): (errs: seq<PostMessage>)
    ensures forall m :: m in errs <==> CreatePostRuleFails(b, m)
    ensures errs == [] <==> b.title.Given? && b.title.value != "" && b.content.Given? && b.content.value != ""
  {
    Failing(CREATE_POST_RULES, m => CreatePostRuleFails(b, m))
  }

  /** The rules of `updatePostValidation`, in chain order. */
  const UPDATE_POST_RULES: seq<PostMessage> := [TitleEmpty, ContentEmpty]

  predicate UpdatePostRuleFails(b: PostBody, m: PostMessage) {
    match m
    case TitleEmpty => !OptionalNotEmpty(b.title)
    case ContentEmpty => !OptionalNotEmpty(b.content)
    case _ => false
  }

  /** The messages `updatePostValidation` collects: a message appears exactly
      when its field is present (including `null`) but empty. */
  function UpdatePostErrors(b: PostBody): (errs: seq<PostMessage>)
    ensures forall m :: m in errs <==> UpdatePostRuleFails(b, m)
    ensures errs == [] <==> OptionalNotEmpty(b.title) && OptionalNotEmpty(b.content)
  {
    Failing(UPDATE_POST_RULES, m => UpdatePostRuleFails(b, m))
  }

  function CreatePostValidation(b: PostBody): (r: Validation<PostBody, PostMessage>)
    ensures r.Accepted? <==> Truthy(b.title) && Truthy(b.content)
    ensures r.Accepted? ==> r.body == b
    ensures r.Rejected? ==> r.errors == CreatePostErrors(b) && r.errors != []
  {
    var errs := CreatePostErrors(b);
    if errs == [] then Accepted(b) else Rejected(errs)
  }

  function UpdatePostValidation(b: PostBody): (r: Validation<PostBody, PostMessage>)
    ensures r.Accepted? <==> (b.title.Absent? || Truthy(b.title)) && (b.content.Absent? || Truthy(b.content))
    ensures r.Accepted? ==> r.body == b
    ensures r.Rejected? ==> r.errors == UpdatePostErrors(b) && r.errors != []
  {
    var errs := UpdatePostErrors(b);
    if errs == [] then Accepted(b) else Rejected(errs)
  }

  /** Every body valid for creation is valid for update. */
  lemma CreateRulesImplyUpdateRules(b: PostBody)
    requires CreatePostValidation(b).Accepted?
    ensures UpdatePostValidation(b).Accepted?
  {
  }

  /** On a body the update rules accept, the handler's truthy-or-keep
      semantics reduce to: a field present in the body replaces the stored
      one, an absent field keeps it. */
  lemma ValidUpdateReplacesPresentFields(p: Post, b: PostBody)
    requires UpdatePostValidation(b).Accepted?
    ensures Updated(p, b).title == (if b.title.Given? then Some(b.title.value) else p.title)
    ensures Updated(p, b).content == (if b.content.Given? then Some(b.content.value) else p.content)
    ensures Updated(p, b).author == p.author
  {
  }
}
