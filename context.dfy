/** The context the processing plugins share: the current text, where it
    came from, and two tables of values plugins leave for each other. */
module PluginContext {
  import opened Base

  /** A snapshot of a context's fields. */
  datatype CtxState = CtxState(
    content: string,
    inputFile: string,
    basePath: string,
    variables: map<string, Value>,
    metadata: map<string, Value>,
    verbose: bool)

  /** How a plugin's `process` ends: it returns, or it raises, in both
      cases leaving the shared context in the given state. */
  datatype Outcome = Returned(state: CtxState) | Raised(exc: Exc, state: CtxState)

  class ProcessingContext {
    var content: string
    var inputFile: string
    var basePath: string
    var variables: map<string, Value>
    var metadata: map<string, Value>
    var verbose: bool

    function State(): CtxState
      reads this
    {
      CtxState(content, inputFile, basePath, variables, metadata, verbose)
    }

    /** A fresh context: the given text, input file and base directory,
        no variables, no metadata, not verbose. */
    constructor(content: string := "", inputFile: string := "", basePath: string := ".")
      ensures State() == CtxState(content, inputFile, basePath, map[], map[], false)
    {
      this.content := content;
      this.inputFile := inputFile;
      this.basePath := basePath;
      this.variables := map[];
      this.metadata := map[];
      this.verbose := false;
    }

    /** `update_content`: only the text changes. */
    method UpdateContent(newContent: string)
      modifies this
      ensures State() == old(State()).(content := newContent)
    {
      content := newContent;
    }

    /** `set_variable`: a put into the variable table. */
    method SetVariable(key: string, value: Value)
      modifies this
      ensures State() == old(State()).(variables := old(variables)[key := value])
    {
      variables := variables[key := value];
    }

    /** `get_variable`: the variable, or `default` when there is none. */
    function GetVariable(key: string, default: Value := VNone): (v: Value)
      reads this
      ensures key in variables ==> v == variables[key]
      ensures key !in variables ==> v == default
    {
      Get(variables, key, default)
    }

    /** Overwrites every field with the snapshot `s`: what a plugin whose
        effect is known only as a state transformer does to the context. */
    method SetState(s: CtxState)
      modifies this
      ensures State() == s
    {
      content, inputFile, basePath := s.content, s.inputFile, s.basePath;
      variables, metadata, verbose := s.variables, s.metadata, s.verbose;
    }
  }

  /** Reading a variable back gives the value just set; other variables
      keep theirs. */
  lemma SetThenGet(vars: map<string, Value>, key: string, value: Value, other: string, default: Value)
    ensures Get(vars[key := value], key, default) == value
    ensures other != key ==> Get(vars[key := value], other, default) == Get(vars, other, default)
  {
  }
}
