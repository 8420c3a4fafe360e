/**
 The labels of the references page that depend on how many references are
 selected: the removal confirmation and the two bulk-action menu items.
 */
module ReferenceLabels {

  /** The plural suffix shared by the three labels. */
  function PluralSuffix(selectedCount: nat): (s: string)
    ensures s == "s" <==> selectedCount > 1
    ensures s == "" <==> selectedCount <= 1
  {
    if selectedCount > 1 then "s" else ""
  }

  function RemoveConfirmationTitle(selectedCount: nat): string
  {
    "Are you sure you want to remove selected reference" + PluralSuffix(selectedCount) + "?"
  }

  function ExportItemLabel(selectedCount: nat): string
  {
    "Export reference" + PluralSuffix(selectedCount)
  }

  function RemoveItemLabel(selectedCount: nat): string
  {
    "Remove reference" + PluralSuffix(selectedCount)
  }

  /** All three labels speak of "references" exactly when more than one
      reference is selected, and of a single "reference" otherwise. */
  lemma LabelsAgreeOnNumber(selectedCount: nat)
    ensures ExportItemLabel(selectedCount) == "Export references" <==> selectedCount > 1
    ensures ExportItemLabel(selectedCount) == "Export reference" <==> selectedCount <= 1
    ensures RemoveItemLabel(selectedCount) == "Remove references" <==> selectedCount > 1
    ensures RemoveItemLabel(selectedCount) == "Remove reference" <==> selectedCount <= 1
    ensures RemoveConfirmationTitle(selectedCount)
         == (if selectedCount > 1 then "Are you sure you want to remove selected references?"
             else "Are you sure you want to remove selected reference?")
  {
  }
}
