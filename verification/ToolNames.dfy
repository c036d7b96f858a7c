/** The names of tools: the current spelling, the spelling before the rename, and what a tool is for. */
module ToolNames {
  import opened Text

  predicate IsCurrent(tool: string) {
    tool in {
      "knowledge.search_authorized", "knowledge.load_evidence_region", "knowledge.multimodal_retrieve",
      "media.extract_findings", "memory.recall_authorized", "memory.promote_approved",
      "workspace.read_text", "workspace.write_text", "calculation.evaluate_with_units",
      "artifact.create_approval_note", "artifact.create_calculation_workbook", "artifact.create_briefing_deck",
      "sandbox.run_code", "artifact.verify_docx", "capability.search", "agent.delegate_readonly",
      "sovereignty.get_evidence", "document.read_pages", "document.search", "knowledge.build_graph",
      "artifact.create_chart", "artifact.create_diagram", "artifact.create_pdf", "artifact.create_table",
      "notebook.add_source", "notebook.create", "notebook.delete", "notebook.list", "notebook.list_sources",
      "notebook.remove_source", "notebook.rename", "artifact.list", "artifact.read"
    }
  }

  function Renamed(tool: string): Option<string> {
    match tool
    case "search_documents" => Some("knowledge.search_authorized")
    case "load_more_evidence" => Some("knowledge.load_evidence_region")
    case "memory_recall_authorized" => Some("memory.recall_authorized")
    case "memory_promote_approved" => Some("memory.promote_approved")
    case "read_scoped_file" => Some("workspace.read_text")
    case "write_scoped_file" => Some("workspace.write_text")
    case "run_calculation" => Some("calculation.evaluate_with_units")
    case "create_docx" => Some("artifact.create_approval_note")
    case "create_xlsx" => Some("artifact.create_calculation_workbook")
    case "create_pptx" => Some("artifact.create_briefing_deck")
    case "execute_code" => Some("sandbox.run_code")
    case "validate_artifact" => Some("artifact.verify_docx")
    case "create_diagram" => Some("artifact.create_diagram")
    case "create_flowchart" => Some("artifact.create_diagram")
    case "create_pdf" => Some("artifact.create_pdf")
    case "create_chart" => Some("artifact.create_chart")
    case "create_table" => Some("artifact.create_table")
    case _ => None
  }

  /** The current name, whichever spelling it arrived in; nothing for a name neither table knows. */
  function Canonical(tool: string): Option<string> {
    if IsCurrent(tool) then Some(tool) else Renamed(tool)
  }

  /** The name something is recorded and looked up under. */
  function NameOf(tool: string): string {
    if Canonical(tool).Some? then Canonical(tool).value else tool
  }

  lemma RenamedIsCurrent(tool: string)
    requires Renamed(tool).Some?
    ensures IsCurrent(Renamed(tool).value)
  {
  }

  /** Naming twice is naming once, so both spellings of a tool meet in one entry. */
  lemma NameIsStable(tool: string)
    ensures NameOf(NameOf(tool)) == NameOf(tool)
    ensures Canonical(tool).Some? ==> Canonical(Canonical(tool).value) == Canonical(tool)
  {
    hide IsCurrent, Renamed;
    if !IsCurrent(tool) && Renamed(tool).Some? {
      RenamedIsCurrent(tool);
    }
  }

  /** Which current name each retired spelling stands for: those of search, memory and files. */
  lemma RetiredReaders()
    ensures Renamed("search_documents") == Some("knowledge.search_authorized")
    ensures Renamed("load_more_evidence") == Some("knowledge.load_evidence_region")
    ensures Renamed("memory_recall_authorized") == Some("memory.recall_authorized")
    ensures Renamed("memory_promote_approved") == Some("memory.promote_approved")
    ensures Renamed("read_scoped_file") == Some("workspace.read_text")
    ensures Renamed("write_scoped_file") == Some("workspace.write_text")
  {
  }

  /** Those of calculation, code and office documents. */
  lemma RetiredMakers()
    ensures Renamed("run_calculation") == Some("calculation.evaluate_with_units")
    ensures Renamed("execute_code") == Some("sandbox.run_code")
    ensures Renamed("create_docx") == Some("artifact.create_approval_note")
    ensures Renamed("create_xlsx") == Some("artifact.create_calculation_workbook")
    ensures Renamed("create_pptx") == Some("artifact.create_briefing_deck")
    ensures Renamed("validate_artifact") == Some("artifact.verify_docx")
  {
  }

  /** And those of drawings; a flowchart is a diagram. */
  lemma RetiredDrawers()
    ensures Renamed("create_diagram") == Some("artifact.create_diagram") && Renamed("create_flowchart") == Some("artifact.create_diagram")
    ensures Renamed("create_pdf") == Some("artifact.create_pdf")
    ensures Renamed("create_chart") == Some("artifact.create_chart")
    ensures Renamed("create_table") == Some("artifact.create_table")
  {
  }

  predicate Known(tool: string, names: set<string>) {
    var name := Canonical(tool);
    name.Some? && name.value in names
  }

  predicate IsEvidenceProducing(tool: string) {
    Known(tool, {
      "knowledge.search_authorized", "knowledge.load_evidence_region", "knowledge.multimodal_retrieve",
      "media.extract_findings"
    })
  }

  predicate IsCalculation(tool: string) { Known(tool, {"calculation.evaluate_with_units"}) }

  predicate IsArtifactProducing(tool: string) {
    Known(tool, {
      "workspace.write_text", "artifact.create_approval_note", "artifact.create_calculation_workbook",
      "artifact.create_briefing_deck", "artifact.create_diagram", "artifact.create_pdf", "artifact.create_table",
      "artifact.create_chart"
    })
  }

  predicate IsSideEffecting(tool: string) {
    Known(tool, {
      "workspace.write_text", "artifact.create_approval_note", "artifact.create_calculation_workbook",
      "artifact.create_briefing_deck", "sandbox.run_code", "artifact.create_diagram", "artifact.create_pdf",
      "artifact.create_table", "artifact.create_chart", "notebook.delete"
    })
  }

  predicate IsCodeExecution(tool: string) { Canonical(tool) == Some("sandbox.run_code") }

  /** A current name stands for itself and a retired one for its successor; what a tool is for goes by that name, and no other tool is for anything. */
  lemma NamesSayWhatFor(tool: string)
    ensures IsCurrent(tool) ==> NameOf(tool) == tool
    ensures !IsCurrent(tool) && Renamed(tool).Some? ==> NameOf(tool) == Renamed(tool).value
    ensures !IsCurrent(tool) && Renamed(tool).None? ==>
              NameOf(tool) == tool && !IsEvidenceProducing(tool) && !IsCalculation(tool) && !IsArtifactProducing(tool)
              && !IsSideEffecting(tool) && !IsCodeExecution(tool)
    ensures forall names: set<string> :: Known(tool, names) <==> (IsCurrent(tool) || Renamed(tool).Some?) && NameOf(tool) in names
    ensures IsCodeExecution(tool) <==> (IsCurrent(tool) || Renamed(tool).Some?) && NameOf(tool) == "sandbox.run_code"
  {
    hide IsCurrent, Renamed;
  }

  /** What the tools that stand for themselves are for. */
  lemma WhatToolsAreFor(tool: string)
    requires IsCurrent(tool)
    ensures IsEvidenceProducing(tool) <==>
            tool == "knowledge.search_authorized" || tool == "knowledge.load_evidence_region"
            || tool == "knowledge.multimodal_retrieve" || tool == "media.extract_findings"
    ensures IsCalculation(tool) <==> tool == "calculation.evaluate_with_units"
    ensures IsArtifactProducing(tool) <==> IsSideEffecting(tool) && tool != "sandbox.run_code" && tool != "notebook.delete"
    ensures IsSideEffecting(tool) <==>
            tool == "workspace.write_text" || tool == "artifact.create_approval_note" || tool == "artifact.create_calculation_workbook"
            || tool == "artifact.create_briefing_deck" || tool == "sandbox.run_code" || tool == "artifact.create_diagram"
            || tool == "artifact.create_pdf" || tool == "artifact.create_table" || tool == "artifact.create_chart" || tool == "notebook.delete"
  {
    hide IsCurrent, Renamed;
  }
}
