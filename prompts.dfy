/**
 * The agent's instruction table and prompt assembly
 * (`get_instruction_for_query_type` and `build_agent_prompt` in
 * src/agents/prompts.py). The texts are the program's own constants.
 */
module Prompts {
  import opened Text
  import Routing

  const AGENT_SYSTEM_PROMPT := @"You are an intelligent assistant for educational documents. You help answer questions about timetables, student lists, advisor assignments, and other educational administrative documents.

You have access to several tools that you can use to answer questions:

1. **search_documents**: Search the uploaded documents for information
2. **calculator**: Perform mathematical calculations
3. **detect_schedule_conflicts**: Find scheduling conflicts for teachers
4. **export_to_csv**: Export data to CSV format

**Instructions:**

Use the ReAct (Reasoning + Acting) pattern to solve problems:
1. **Thought**: Think about what you need to do
2. **Action**: Use a tool to get information or perform a task
3. **Observation**: Observe the result from the tool
4. **Repeat** until you have enough information to answer
5. **Final Answer**: Provide a complete, helpful answer

**Guidelines:**

- Always search documents FIRST before making assumptions
- Use the calculator for any arithmetic (counting, addition, etc.)
- For scheduling conflicts, search for the teacher's schedule first, then use the conflict detector
- Be specific and cite sources when possible
- If you can't find information, say so clearly
- For CSV exports, structure the data clearly before exporting

**Example Reasoning:**

Question: ""How many students does Raja Shoaib advise?""

Thought: I need to search for information about Raja Shoaib's advisory role.
Action: search_documents
Action Input: ""Raja Shoaib advises students""
Observation: [search results showing ""Raja Shoaib - O-Level Section A advisor - Advises 15 students""]

Thought: I found the information. Raja Shoaib advises 15 students.
Final Answer: Raja Shoaib advises 15 students as the O-Level Section A advisor.

**Remember:**
- Use tools systematically
- Show your reasoning process
- Provide accurate, well-sourced answers
- Be helpful and clear in your responses
"

  const SIMPLE_QUERY_INSTRUCTION := "This is a simple factual query. Search the documents for the answer."
  const CROSS_DOCUMENT_INSTRUCTION :=
    "This query requires information from multiple sources.\n"
    + "Search for relevant information, gather all necessary data, then synthesize your answer."
  const AGGREGATION_INSTRUCTION :=
    "This query requires counting or aggregation.\n"
    + "Search for the relevant data, then use the calculator to perform any necessary computations."
  const COMPLEX_INSTRUCTION :=
    "This is a complex query requiring multi-step reasoning.\n"
    + "Break it down into steps, use appropriate tools, and build up to a complete answer."

  /** The table `get_instruction_for_query_type` looks keys up in. */
  const INSTRUCTIONS: map<string, string> := map[
    "simple" := SIMPLE_QUERY_INSTRUCTION,
    "cross_document" := CROSS_DOCUMENT_INSTRUCTION,
    "aggregation" := AGGREGATION_INSTRUCTION,
    "complex" := COMPLEX_INSTRUCTION
  ]

  /** `instructions.get(query_type.lower(), SIMPLE_QUERY_INSTRUCTION)` */
  function GetInstruction(queryType: string): (r: string)
    ensures r in INSTRUCTIONS.Values
    ensures LowerStr(queryType) !in INSTRUCTIONS ==> r == SIMPLE_QUERY_INSTRUCTION
  {
    assert INSTRUCTIONS["simple"] == SIMPLE_QUERY_INSTRUCTION;
    var key := LowerStr(queryType);
    if key in INSTRUCTIONS then INSTRUCTIONS[key] else SIMPLE_QUERY_INSTRUCTION
  }

  /** The instruction constant of each query type. */
  function InstructionOf(t: Routing.QueryType): string {
    match t
    case Simple => SIMPLE_QUERY_INSTRUCTION
    case CrossDocument => CROSS_DOCUMENT_INSTRUCTION
    case Aggregation => AGGREGATION_INSTRUCTION
    case Complex => COMPLEX_INSTRUCTION
  }

  /** Every query type's value is a key of the table, and it finds that type's own instruction. */
  lemma EveryTypeHasInstruction(t: Routing.QueryType)
    ensures t.Value() in INSTRUCTIONS
    ensures GetInstruction(t.Value()) == InstructionOf(t)
  {
    assert LowerStr(t.Value()) == t.Value();
  }

  /** The key is read without regard to case. */
  lemma GetInstructionIgnoresCase(queryType: string)
    ensures GetInstruction(UpperStr(queryType)) == GetInstruction(queryType)
    ensures GetInstruction(LowerStr(queryType)) == GetInstruction(queryType)
  {
    LowerOfUpper(queryType);
    LowerIdempotent(queryType);
  }

  /** An unknown key gives the simple instruction. */
  lemma UnknownKeyIsSimple(queryType: string)
    requires LowerStr(queryType) !in INSTRUCTIONS
    ensures GetInstruction(queryType) == SIMPLE_QUERY_INSTRUCTION
  {
  }

  /** The default of `query_type` when the agent prompt is built. */
  const DEFAULT_QUERY_TYPE := "simple"

  /** The parts of the prompt around the system text, the query type, the instruction and the question. */
  const TYPE_LABEL := "\n\n**Query Type:** "
  const INSTRUCTION_LABEL := "\n**Specific Instruction:** "
  const QUESTION_LABEL := "\n\n**User Question:** "
  const CLOSING := "\n\nNow begin your reasoning and use tools as needed to answer the question.\n"

  /** The prompt text for a given system text; `build_agent_prompt` uses the agent's own. */
  function Assemble(system: string, queryType: string, instruction: string, query: string): string {
    system + TYPE_LABEL + queryType + INSTRUCTION_LABEL + instruction + QUESTION_LABEL + query + CLOSING
  }

  /** `build_agent_prompt(query, query_type)` */
  function BuildAgentPrompt(query: string, queryType: string): (p: string)
    ensures StartsWith(p, AGENT_SYSTEM_PROMPT)
    ensures |p| > |query| + |queryType| + |AGENT_SYSTEM_PROMPT|
  {
    AssembleFrame(AGENT_SYSTEM_PROMPT, queryType, GetInstruction(queryType), query);
    Assemble(AGENT_SYSTEM_PROMPT, queryType, GetInstruction(queryType), query)
  }

  /** The assembled prompt starts with the system text and is longer than the parts it is given. */
  lemma AssembleFrame(system: string, queryType: string, instruction: string, query: string)
    ensures StartsWith(Assemble(system, queryType, instruction, query), system)
    ensures |Assemble(system, queryType, instruction, query)| > |query| + |queryType| + |system|
  {
    var rest := TYPE_LABEL + queryType + INSTRUCTION_LABEL + instruction + QUESTION_LABEL + query + CLOSING;
    assert Assemble(system, queryType, instruction, query) == system + rest;
  }

  /** The assembled prompt starts with the system text and holds each of the other three parts. */
  lemma AssembleParts(system: string, queryType: string, instruction: string, query: string)
    ensures var p := Assemble(system, queryType, instruction, query);
      StartsWith(p, system) && Contains(p, queryType) && Contains(p, instruction) && Contains(p, query)
  {
    Interleaved(system, TYPE_LABEL, queryType, INSTRUCTION_LABEL, instruction, QUESTION_LABEL, query, CLOSING);
  }

  /** Texts placed between fixed labels can be found in the whole. */
  lemma Interleaved(a: string, b: string, c: string, d: string, e: string, f: string, g: string, h: string)
    ensures var p := a + b + c + d + e + f + g + h;
      StartsWith(p, a) && Contains(p, c) && Contains(p, e) && Contains(p, g)
  {
    var p := a + b + c + d + e + f + g + h;
    assert p[..|a|] == a;
    assert p == (a + b) + c + (d + e + f + g + h);
    ContainsMiddle(a + b, c, d + e + f + g + h);
    assert p == (a + b + c + d) + e + (f + g + h);
    ContainsMiddle(a + b + c + d, e, f + g + h);
    assert p == (a + b + c + d + e + f) + g + h;
    ContainsMiddle(a + b + c + d + e + f, g, h);
  }

  /**
   * The agent prompt starts with the system prompt and contains the query
   * type as given, the instruction looked up for it and the question.
   */
  lemma BuildAgentPromptParts(query: string, queryType: string)
    ensures var p := BuildAgentPrompt(query, queryType);
      StartsWith(p, AGENT_SYSTEM_PROMPT) && Contains(p, queryType)
      && Contains(p, GetInstruction(queryType)) && Contains(p, query)
  {
    AssembleParts(AGENT_SYSTEM_PROMPT, queryType, GetInstruction(queryType), query);
  }
}
