/**
 * The chemical structure (an RDKit `Mol`) as the curation core sees it.
 *
 * The core never looks inside a structure: it only asks for its content
 * fingerprint (`hash(mol.ToBinary())`), its atom count, its canonical SMILES
 * and its exact molecular weight.  A structure is therefore represented by
 * exactly these four observations, which are otherwise unconstrained.
 */
module Structure {

  datatype Mol = Mol(fingerprint: int, numAtoms: nat, smiles: string, exactWeight: real)

  /** Fingerprint of the empty structure; its value is not known to the core. */
  const EmptyFingerprint: int

  /** The sentinel returned by `MolFromSmiles("")`: no atoms, empty SMILES. */
  const EmptyMol: Mol := Mol(EmptyFingerprint, 0, "", 0.0)

  /** `mol.GetNumAtoms() == 0` */
  predicate IsEmpty(m: Mol) {
    m.numAtoms == 0
  }
}
