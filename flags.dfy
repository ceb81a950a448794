/** The curation note and issue enumerations of the older package, with their texts. */
module Flags {

  datatype Note =
    | FailedCurate | Flattened | Sanitized | Neutralized | Canonical | AddedHs | Demixed
    | Generated3dConformer | LabelMadeNumeric | DigitizedLabel | BinarizedLabel
    | RemovedUnnecessaryHs | RemovedAllHs | FilledMissingLabel
  {
    function Text(): string {
      match this
      case FailedCurate => "compound failed curation"
      case Flattened => "compound flattened"
      case Sanitized => "compound sanitized"
      case Neutralized => "compound neutralized"
      case Canonical => "compound made canonical"
      case AddedHs => "explict H added to compound"
      case Demixed => "seperated out a mixture component"
      case Generated3dConformer => "3d conformer generated for compound"
      case LabelMadeNumeric => "label made numeric"
      case DigitizedLabel => "digitized label"
      case BinarizedLabel => "binarized label"
      case RemovedUnnecessaryHs => "removed unnecessary H"
      case RemovedAllHs => "removed all H"
      case FilledMissingLabel => "filled missing label value"
    }
  }

  datatype Issue =
    | Mixture | Inorganic | Boron | RdkitFailed | FailedAddingHs | FailedGen3dConformer
    | FlattenFailed | SanitizeFailed | NeutralizeFailed | CanonicalFailed | Duplicate
    | DisagreeingDuplicate | MissingLabel | NonNumericLabel | FailedCustomLabelFilter
    | WrongMw | FailedRemoveHs
  {
    function Text(): string {
      match this
      case Mixture => "compound is a mixture"
      case Inorganic => "compound is inorganic"
      case Boron => "compound has boron"
      case RdkitFailed => "rdkit failed to read molecule"
      case FailedAddingHs => "rdkit failed to add H to molecule"
      case FailedGen3dConformer => "rdkit failed to generated a 3d pose for molecule"
      case FlattenFailed => "compound failed to be flattened"
      case SanitizeFailed => "compound failed to be sanitized"
      case NeutralizeFailed => "compound failed to be neutralized"
      case CanonicalFailed => "compound failed to be canonicalized"
      case Duplicate => "compound is duplicate"
      case DisagreeingDuplicate => "compound has duplicate with disagreeing label"
      case MissingLabel => "label value is missing"
      case NonNumericLabel => "label value is not numeric"
      case FailedCustomLabelFilter => "label failed custom label filter"
      case WrongMw => "molecule weight too big or small"
      case FailedRemoveHs => "rdkit failed to remove H from molecule"
    }
  }
}
