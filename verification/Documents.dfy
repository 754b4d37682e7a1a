/** The records of vault-core: documents, versions, submissions, categories and the role matrix. */
module Documents {
  import opened Common

  datatype Category = Tesis | ExpedienteProfesor | Resolucion | Evaluacion | FotografiaDocumental | MaterialGrafico

  /** The folder of a category. */
  function DirName(c: Category): string {
    match c
    case Tesis => "Tesis"
    case ExpedienteProfesor => "Expediente_Profesor"
    case Resolucion => "Resolucion"
    case Evaluacion => "Evaluacion"
    case FotografiaDocumental => "Fotografia_Documental"
    case MaterialGrafico => "Material_Grafico"
  }

  /** The name of a category in the protocol. */
  function ProtocolName(c: Category): string {
    match c
    case Tesis => "tesis"
    case ExpedienteProfesor => "expediente_profesor"
    case Resolucion => "resolucion"
    case Evaluacion => "evaluacion"
    case FotografiaDocumental => "fotografia_documental"
    case MaterialGrafico => "material_grafico"
  }

  /** A category from its folder name or its protocol name. */
  function FromDirName(s: string): Option<Category> {
    if s == "Tesis" || s == "tesis" then Some(Tesis)
    else if s == "Expediente_Profesor" || s == "expediente_profesor" then Some(ExpedienteProfesor)
    else if s == "Resolucion" || s == "resolucion" then Some(Resolucion)
    else if s == "Evaluacion" || s == "evaluacion" then Some(Evaluacion)
    else if s == "FotografiaDocumental" || s == "Fotografia_Documental" || s == "fotografia_documental"
    then Some(FotografiaDocumental)
    else if s == "MaterialGrafico" || s == "Material_Grafico" || s == "material_grafico" then Some(MaterialGrafico)
    else None
  }

  datatype IntegrityStatus = Intact | Unverified | Tampered

  datatype Role = Docente | Administrativo | Coordinacion | Director {
    predicate CanRenameOrMove() { Administrativo? }

    predicate CanSoftDelete() { Administrativo? }

    predicate CanRestore() { Administrativo? }

    predicate CanEditMeta() { Administrativo? || Coordinacion? }

    predicate VersionsOnEdit() { Coordinacion? }

    predicate CanImport() { CanRenameOrMove() || CanEditMeta() }
  }

  datatype DocumentMeta = DocumentMeta(
    title: string,
    category: Category,
    author: string,
    department: string,
    academicYear: Option<nat>,
    fileName: string,
    extension: string)

  /** A path relative to the vault root, as its components. */
  type Path = seq<string>

  datatype Document = Document(
    vaultId: string,
    sha256: string,
    blake3: string,
    sizeBytes: nat,
    meta: DocumentMeta,
    relPath: Path,
    rfc3161Time: Option<string>,
    integrity: IntegrityStatus,
    originDevice: Option<string>)

  datatype TrashedDocument = TrashedDocument(document: Document, trashedBy: string, trashedAt: string, reason: string)

  datatype DocumentVersion = DocumentVersion(
    vaultId: string,
    version: nat,
    sha256: string,
    relPath: Path,
    meta: DocumentMeta,
    createdBy: string,
    createdAt: string,
    note: string)

  datatype AdmissionState = Pending | Admitted | Rejected

  datatype Submission = Submission(
    submissionId: string,
    deviceId: string,
    meta: DocumentMeta,
    sha256: string,
    blake3: string,
    sizeBytes: nat,
    stagingPath: string,
    receivedAt: string,
    state: AdmissionState)

  /** The folder names of different categories differ, and each is read back as its category. */
  lemma DirNameRoundTrip(c: Category)
    ensures FromDirName(DirName(c)) == Some(c)
  {}

  /** The names that are read as a category are its folder name and its protocol name, and for two categories the folder name
      without its underscore; any other text is no category. */
  lemma CategoryNames(s: string, c: Category)
    ensures FromDirName(s) == Some(c) <==>
              || s == DirName(c) || s == ProtocolName(c)
              || (c == FotografiaDocumental && s == "FotografiaDocumental")
              || (c == MaterialGrafico && s == "MaterialGrafico")
  {}

  lemma ProtocolNameRoundTrip(c: Category)
    ensures FromDirName(ProtocolName(c)) == Some(c)
  {}
}
