/** Fingerprints, room identifiers and room members. */
module Members {
  import opened Basics

  /** 40 characters. */
  type Fingerprint = s: string | |s| == 40
    witness "0000000000000000000000000000000000000000"

  /** The abbreviation shown in logs, and the key of the attempt counter. */
  function Short(fp: Fingerprint): string {
    fp[..4] + ".." + fp[36..]
  }

  type RoomId = string

  datatype Role = Member | Admin | Owner

  datatype Status = Active | Revoked
}
