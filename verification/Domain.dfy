/** Enumerations that several engines share (app/domain). */
module Domain {

  datatype WorkflowType = AnalyzeOnly | PreviewActionPlan | ApplySelectedActions | Export

  datatype Modality = Tabular | TextModality | Image | Video | Audio | DocumentOcr | Multimodal

  datatype Readiness = ReadyForExport | ReadyWithWarnings | NotReadyForExport | BlockedReadiness
}
