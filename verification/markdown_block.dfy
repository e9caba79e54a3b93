/** The string logic of `MarkdownBlockUtils`: where a code block's language
    name comes from, the substitution table, the class-name splitting of the
    React path, the in-flight rule and the block's local index. The DOM is
    reduced to the values these functions read from it. */
module MarkdownBlock {
  import opened Base
  import opened JsValue

  // ---------------------------------------------------------------------
  // `language-(\S+)`

  /** `\s` of a JavaScript regular expression: the ASCII white space, the
      line terminators, and the Unicode space separators with BOM. */
  predicate IsJsSpace(c: char) {
    c == '\t' || c == '\n' || c == '\U{000B}' || c == '\U{000C}' || c == '\r' || c == ' '
    || c == '\U{00A0}' || c == '\U{1680}' || ('\U{2000}' <= c <= '\U{200A}')
    || c == '\U{2028}' || c == '\U{2029}' || c == '\U{202F}' || c == '\U{205F}' || c == '\U{3000}'
    || c == '\U{FEFF}'
  }

  predicate NoSpace(s: string) {
    forall i :: 0 <= i < |s| ==> !IsJsSpace(s[i])
  }

  const LangPrefix := "language-"

  /** The length of the longest run of non-space characters at `from`. */
  function NonSpaceRun(s: string, from: nat): (n: nat)
    requires from <= |s|
    ensures from + n <= |s|
    ensures NoSpace(s[from..from + n])
    ensures from + n == |s| || IsJsSpace(s[from + n])
    decreases |s| - from
  {
    if from == |s| || IsJsSpace(s[from]) then 0
    else
      var n := 1 + NonSpaceRun(s, from + 1);
      assert s[from..from + n] == [s[from]] + s[from + 1..from + n];
      n
  }

  /** Whether `language-` followed by a non-space character starts at `j`. */
  predicate CaptureStartsAt(cls: string, j: nat) {
    j + |LangPrefix| < |cls| && cls[j..j + |LangPrefix|] == LangPrefix && !IsJsSpace(cls[j + |LangPrefix|])
  }

  /** Where the leftmost match at or after `from` begins. */
  function FirstCaptureStart(cls: string, from: nat): (r: Option<nat>)
    requires from <= |cls|
    ensures r.None? <==> forall j :: from <= j < |cls| ==> !CaptureStartsAt(cls, j)
    ensures r.Some? ==> from <= r.value < |cls| && CaptureStartsAt(cls, r.value)
                        && forall i :: from <= i < r.value ==> !CaptureStartsAt(cls, i)
    decreases |cls| - from
  {
    if from + |LangPrefix| >= |cls| then None
    else if CaptureStartsAt(cls, from) then Some(from)
    else FirstCaptureStart(cls, from + 1)
  }

  /** The leftmost match begins at `j`. */
  predicate LeftmostCaptureAt(cls: string, j: nat) {
    j < |cls| && CaptureStartsAt(cls, j) && forall i :: 0 <= i < j ==> !CaptureStartsAt(cls, i)
  }

  lemma FirstCaptureIsLeftmost(cls: string)
    ensures forall j: nat :: LeftmostCaptureAt(cls, j) ==> FirstCaptureStart(cls, 0) == Some(j)
  {
  }

  /** `cls.match(/language-(\S+)/)?.[1]`: the greedy run of non-space
      characters after the leftmost `language-` that is followed by one. */
  function LanguageCapture(cls: string): (r: Option<string>)
    ensures r.None? <==> forall j :: 0 <= j < |cls| ==> !CaptureStartsAt(cls, j)
    ensures r.Some? ==> r.value != "" && NoSpace(r.value)
    ensures forall j: nat :: LeftmostCaptureAt(cls, j) ==>
      && r.Some?
      && j + |LangPrefix| + |r.value| <= |cls|
      && cls[j + |LangPrefix|..j + |LangPrefix| + |r.value|] == r.value
      && (j + |LangPrefix| + |r.value| == |cls| || IsJsSpace(cls[j + |LangPrefix| + |r.value|]))
  {
    FirstCaptureIsLeftmost(cls);
    match FirstCaptureStart(cls, 0)
    case None => None
    case Some(j) =>
      var start := j + |LangPrefix|;
      Some(cls[start..start + NonSpaceRun(cls, start)])
  }

  /** A class list that begins with `language-<name>` yields `<name>`,
      whatever other classes follow a space. */
  lemma LanguageCaptureOfClass(name: string, rest: string)
    requires name != "" && NoSpace(name)
    ensures LanguageCapture(LangPrefix + name + (if rest == "" then "" else " " + rest)) == Some(name)
  {
    var tail := if rest == "" then "" else " " + rest;
    var cls := LangPrefix + name + tail;
    assert cls[..|LangPrefix|] == LangPrefix;
    assert cls[|LangPrefix|] == name[0];
    assert CaptureStartsAt(cls, 0);
    assert cls[|LangPrefix|..|LangPrefix| + |name|] == name;
    NonSpaceRunIs(cls, |LangPrefix|, |name|);
  }

  /** A maximal run of non-space characters is the run `NonSpaceRun` measures. */
  lemma {:induction false} NonSpaceRunIs(s: string, from: nat, k: nat)
    requires from + k <= |s| && NoSpace(s[from..from + k])
    requires from + k == |s| || IsJsSpace(s[from + k])
    ensures NonSpaceRun(s, from) == k
    decreases k
  {
    if k > 0 {
      assert s[from] == s[from..from + k][0];
      assert s[from + 1..from + k] == s[from..from + k][1..];
      NonSpaceRunIs(s, from + 1, k - 1);
    }
  }

  // ---------------------------------------------------------------------
  // `getLang`, `translateLang`, `transformPreBlock`

  /** `getLang`: the first non-empty of the `data-lang` attribute, the
      language named in the code element's class, and the text of the
      `.rounded-br` label; otherwise "". An absent attribute or element reads
      as "". */
  function GetLang(dataLang: string, codeClass: string, roundedBrText: string): (r: string)
    ensures dataLang != "" ==> r == dataLang
    ensures dataLang == "" && LanguageCapture(codeClass).Some? ==> r == LanguageCapture(codeClass).value
    ensures dataLang == "" && LanguageCapture(codeClass).None? ==> r == roundedBrText
    ensures r == "" <==> dataLang == "" && roundedBrText == ""
                         && forall j :: 0 <= j < |codeClass| ==> !CaptureStartsAt(codeClass, j)
  {
    if dataLang != "" then dataLang
    else
      match LanguageCapture(codeClass)
      case Some(lang) => lang
      case None => roundedBrText
  }

  const Substitutions: map<string, string> := map["scratchpad" := "md", "claudethinking" := "md"]

  /** `translateLang`: the two thinking-block names display as Markdown;
      every other name is unchanged. */
  function TranslateLang(lang: string): (r: string)
    ensures lang == "scratchpad" || lang == "claudethinking" ==> r == "md"
    ensures lang != "scratchpad" && lang != "claudethinking" ==> r == lang
  {
    if lang in Substitutions && Substitutions[lang] != "" then Substitutions[lang] else lang
  }

  /** Translating a translated name changes nothing. */
  lemma TranslateLangIdempotent(lang: string)
    ensures TranslateLang(TranslateLang(lang)) == TranslateLang(lang)
  {
  }

  /** What `transformPreBlock` reads from and writes to a `pre` element:
      its `data-toolbar` flag, whether its parent matches the Markdown-query
      selector (then it is not native), the language `getLang` reads, its
      parent and its previous sibling, if any. */
  datatype Pre = Pre(dataToolbar: bool, parentIsQuery: bool, lang: string, parent: nat, prev: Option<nat>)

  /** The wrapper, the container (`$pre.prev()`, which may be empty on the
      existing-toolbar path), the language and nativeness. */
  datatype Transform = Transform(wrapper: nat, container: Option<nat>, lang: string, isNative: bool)

  /** `transformPreBlock` on a possibly missing element. Nativeness is read
      from the element's current parent on every call. A flagged element
      returns its parent and previous sibling as wrapper and container.
      Otherwise a new container is made, and a new wrapper unless native
      (then the parent is the wrapper). The container is prepended to the
      wrapper and, when not native, the wrapper takes the element's place and
      the element moves inside it, so its parent becomes the new wrapper;
      `wrapperIsQuery` says whether that fresh wrapper matches the
      Markdown-query selector. The element is then flagged. The result is the
      transform and the element afterwards. */
  function TransformPreBlock(pre: Option<Pre>, newContainer: nat, newWrapper: nat, wrapperIsQuery: bool)
    : (r: (Option<Transform>, Option<Pre>))
    ensures pre.None? <==> r.0.None?
    ensures r.1.Some? <==> pre.Some?
    ensures pre.Some? ==>
      && r.0.value.lang == (if pre.value.lang == "" then "text" else pre.value.lang)
      && r.0.value.isNative == !pre.value.parentIsQuery
      && r.1.value.dataToolbar
      && r.1.value.lang == pre.value.lang
    ensures pre.Some? && pre.value.dataToolbar ==>
      r.1 == pre && r.0.value.wrapper == pre.value.parent && r.0.value.container == pre.value.prev
    ensures pre.Some? && !pre.value.dataToolbar ==>
      && r.0.value.container == Some(newContainer)
      && r.0.value.wrapper == (if pre.value.parentIsQuery then newWrapper else pre.value.parent)
      && r.1.value.parent == r.0.value.wrapper
      && r.1.value.parentIsQuery == (if pre.value.parentIsQuery then wrapperIsQuery else pre.value.parentIsQuery)
      && r.1.value.prev == (if pre.value.parentIsQuery || pre.value.prev.None? then Some(newContainer) else pre.value.prev)
  {
    match pre
    case None => (None, None)
    case Some(p) =>
      var isNative := !p.parentIsQuery;
      var lang := if p.lang == "" then "text" else p.lang;
      if p.dataToolbar then
        (Some(Transform(p.parent, p.prev, lang, isNative)), pre)
      else
        var wrapper := if isNative then p.parent else newWrapper;
        var moved :=
          if isNative then p.(prev := if p.prev.None? then Some(newContainer) else p.prev)
          else p.(parent := newWrapper, parentIsQuery := wrapperIsQuery, prev := Some(newContainer));
        (Some(Transform(wrapper, Some(newContainer), lang, isNative)), Some(moved.(dataToolbar := true)))
  }

  /** Transforming twice builds once: the second call is the existing-toolbar
      path, changes nothing, and returns the same wrapper; it returns the
      same container when the first call moved the element into a new
      wrapper, or when a native element had no previous sibling. Nativeness
      is read again from the new parent: an element the first call moved is
      native the second time exactly when its new wrapper does not match the
      Markdown-query selector. */
  lemma TransformPreBlockOnce(pre: Pre, c1: nat, w1: nat, q1: bool, c2: nat, w2: nat, q2: bool)
    ensures var (t1, after) := TransformPreBlock(Some(pre), c1, w1, q1);
      var (t2, after2) := TransformPreBlock(after, c2, w2, q2);
      && after2 == after
      && t2.value.wrapper == t1.value.wrapper && t2.value.lang == t1.value.lang
      && t2.value.isNative == (if !pre.dataToolbar && pre.parentIsQuery then !q1 else t1.value.isNative)
      && (pre.parentIsQuery || pre.prev.None? || pre.dataToolbar ==> t2.value.container == t1.value.container)
  {
  }

  /** As written, a non-native element that the first call moved into a
      wrapper outside the Markdown query is reported native by every later
      call. */
  lemma {:induction false} MovedPreTurnsNative(pre: Pre, c1: nat, w1: nat, c2: nat, w2: nat, q2: bool)
    requires !pre.dataToolbar && pre.parentIsQuery
    ensures var (t1, after) := TransformPreBlock(Some(pre), c1, w1, false);
      !t1.value.isNative && TransformPreBlock(after, c2, w2, q2).0.value.isNative
  {
    TransformPreBlockOnce(pre, c1, w1, false, c2, w2, q2);
  }

  // ---------------------------------------------------------------------
  // `getLangFromReactNode`

  /** Everything after the first `-`, as `split("-").slice(1).join("-")`. */
  function AfterFirstDash(s: string): (r: string)
    ensures '-' !in s ==> r == ""
  {
    var parts := Split(s, '-');
    assert '-' !in s ==> parts == [s] by {
      if '-' !in s { SplitWithoutSeparator(s, '-'); }
    }
    Join(parts[1..], '-')
  }

  /** With the first `-` after `head`, the rest of the name comes back intact,
      dashes included; without any `-` nothing is left. */
  lemma AfterFirstDashSplits(head: string, rest: string)
    requires '-' !in head
    ensures AfterFirstDash(head + "-" + rest) == rest
    ensures AfterFirstDash(head) == ""
  {
    assert head + "-" + rest == head + ['-'] + rest;
    SplitAppend(head, '-', rest);
    SplitWithoutSeparator(head, '-');
    assert Split(head + "-" + rest, '-')[1..] == Split(rest, '-');
    JoinSplit(rest, '-');
  }

  /** What the React path finds on the element: outside the page's main
      world nothing is read; otherwise the React props key may be missing, or
      the value stored under it is read. */
  datatype ReactNode =
    | NotMainWorld
    | NoPropsKey
    | WithProps(props: Value)

  /** `typeof v === "object"`: objects, arrays and `null`. */
  predicate TypeofObject(v: Value) {
    v.Null? || v.Arr? || v.Obj?
  }

  /** `v?.[0]`: the first item of an array, the first character of a string,
      the property "0" of an object, and `undefined` otherwise. */
  function Index0(v: Value): Value {
    match v
    case Arr(items) => if |items| > 0 then items[0] else Undefined
    case Str(s) => if |s| > 0 then Str([s[0]]) else Undefined
    case _ => Prop(v, "0")
  }

  /** `props.children?.[0]?.props?.className` for non-null props. */
  function ReactClassName(props: Value): Value {
    Prop(Prop(Index0(Prop(props, "children")), "props"), "className")
  }

  /** `getLangFromReactNode`; `None` is `undefined` and `domLang` is what
      `getLang` reads from the element. Outside the main world the result is
      `domLang`. Props that are not of type "object" give `undefined`. A
      string class name loses everything up to its first `-`, falling back
      to "text" when nothing remains; an absent one gives "text". Reading
      `children` of `null` props, or calling `split` on a class name that is
      neither a string nor nullish, throws, and the handler returns
      `domLang`. */
  function GetLangFromReactNode(node: ReactNode, domLang: string): (r: Option<string>)
    ensures node.NotMainWorld? ==> r == Some(domLang)
    ensures node.NoPropsKey? ==> r.None?
    ensures node.WithProps? ==> (r.None? <==> !TypeofObject(node.props))
    ensures node.WithProps? && node.props.Null? ==> r == Some(domLang)
    ensures node.WithProps? && (node.props.Arr? || node.props.Obj?) ==>
      var c := ReactClassName(node.props);
      && (c.Str? ==> r == Some(if AfterFirstDash(c.s) == "" then "text" else AfterFirstDash(c.s)))
      && (Nullish(c) ==> r == Some("text"))
      && (!c.Str? && !Nullish(c) ==> r == Some(domLang))
    ensures r == Some("") ==> domLang == ""
  {
    match node
    case NotMainWorld => Some(domLang)
    case NoPropsKey => None
    case WithProps(props) =>
      if !TypeofObject(props) then None
      else if props.Null? then Some(domLang)
      else
        match ReactClassName(props)
        case Str(s) => var lang := AfterFirstDash(s); Some(if lang == "" then "text" else lang)
        case Undefined => Some("text")
        case Null => Some("text")
        case _ => Some(domLang)
  }

  /** The props React gives a highlighted code block whose code element has
      class `cls`. */
  function CodeBlockProps(cls: string): Value {
    Obj(map["children" := Arr([Obj(map["props" := Obj(map["className" := Str(cls)])])])])
  }

  /** The React path reads the class name back out of these props. */
  lemma CodeBlockClassName(cls: string)
    ensures ReactClassName(CodeBlockProps(cls)) == Str(cls)
  {
  }

  /** For a code element of class `language-<name>`, the React path and the
      DOM path's class capture agree on `<name>`, dashes included. */
  lemma ReactPathAgreesWithClass(name: string, domLang: string)
    requires name != "" && NoSpace(name)
    ensures GetLangFromReactNode(WithProps(CodeBlockProps(LangPrefix + name)), domLang) == Some(name)
    ensures LanguageCapture(LangPrefix + name) == Some(name)
  {
    var cls := LangPrefix + name;
    CodeBlockClassName(cls);
    assert cls == "language" + "-" + name;
    AfterFirstDashSplits("language", name);
    LanguageCaptureOfClass(name, "");
    assert cls + "" == cls;
  }

  // ---------------------------------------------------------------------
  // `isInFlight`, `getPreBlockLocalIndex`

  /** `${code}` of the code the React node returns: `undefined` prints as such. */
  function CodeText(code: Option<string>): string {
    match code
    case Some(c) => c
    case None => "undefined"
  }

  const Fence := "```"

  /** A `sendMessage` with a timeout either rejects when the timeout elapses
      or resolves with the reply. */
  datatype Reply<T> = TimedOut | Replied(value: T)

  /** The reply to `getMessageData`: nothing (a falsy reply), or the message
      data, whose `answer` may be missing. */
  datatype MessageData = NoMessageData | MessageData(answer: Option<string>)

  /** How the promise `isInFlight` returns settles. */
  datatype Settled = Resolved(inFlight: bool) | Rejected

  /** `isInFlight`: a code block is still streaming when its message has no
      bottom bar yet, the message data came back, and the answer does not
      yet contain the block's code followed by a closing fence. Either reply
      timing out, or message data without an `answer`, rejects. The code is
      asked for only after truthy message data came back. */
  function IsInFlight(hasMessageBlock: bool, hasBottomBar: bool, message: Reply<MessageData>,
                      code: Reply<Option<string>>): (r: Settled)
    ensures !hasMessageBlock || hasBottomBar ==> r == Resolved(false)
    ensures r.Rejected? <==>
      && hasMessageBlock && !hasBottomBar
      && (|| message.TimedOut?
          || (message.value.MessageData? && (code.TimedOut? || message.value.answer.None?)))
    ensures r == Resolved(true) <==>
      && hasMessageBlock && !hasBottomBar
      && message.Replied? && message.value.MessageData? && message.value.answer.Some?
      && code.Replied? && !Contains(message.value.answer.value, CodeText(code.value) + Fence)
  {
    if !hasMessageBlock then Resolved(false)
    else if hasBottomBar then Resolved(false)
    else match message
      case TimedOut => Rejected
      case Replied(NoMessageData) => Resolved(false)
      case Replied(MessageData(answer)) =>
        match code
        case TimedOut => Rejected
        case Replied(c) =>
          if answer.None? then Rejected
          else Resolved(!Includes(answer.value, CodeText(c) + Fence))
  }

  /** Once the answer holds the code and its closing fence, the block is no
      longer in flight. */
  lemma ClosedBlockNotInFlight(before: string, code: string, after: string, bottomBar: bool)
    ensures IsInFlight(true, bottomBar, Replied(MessageData(Some(before + code + Fence + after))), Replied(Some(code)))
            == Resolved(false)
  {
    var a := before + code + Fence + after;
    assert a[|before|..|before| + |code + Fence|] == code + Fence;
    assert OccursAt(a, code + Fence, |before|);
  }

  /** `getPreBlockLocalIndex`: the position of the element among the `pre`
      elements of its message block, or -1 when it has no message block or
      is not among them. */
  method GetPreBlockLocalIndex(blockPres: Option<seq<nat>>, pre: nat) returns (r: int)
    ensures blockPres.None? ==> r == -1
    ensures blockPres.Some? ==> (r == -1 <==> pre !in blockPres.value)
    ensures r != -1 ==> 0 <= r < |blockPres.value| && blockPres.value[r] == pre
                        && pre !in blockPres.value[..r]
  {
    if blockPres.None? {
      return -1;
    }
    var pres := blockPres.value;
    var i := 0;
    while i < |pres|
      invariant 0 <= i <= |pres|
      invariant pre !in pres[..i]
      decreases |pres| - i
    {
      if pres[i] == pre {
        return i;
      }
      assert pres[..i + 1] == pres[..i] + [pres[i]];
      i := i + 1;
    }
    assert pres[..i] == pres;
    return -1;
  }
}
