/**
 * The CRC value used by the chunk tests: CRC-32/ISO-HDLC of "RuSt" followed
 * by the 42 bytes of "This is where your secret message will be!" is
 * 2882656334. The register value after each byte is written out and every
 * step is checked against `UpdateByte`.
 */
module CrcTestVector {
  import opened Utils
  import opened Crc

  /** One byte of a CRC computation, by the definition of `Register`. */
  lemma RegisterStep(s: seq<u8>, i: nat, b: u8, c: bv32, c': bv32)
    requires i < |s| && s[i] == b && UpdateByte(c, b) == c'
    ensures Register(c, s, i) == Register(c', s, i + 1)
  {
  }

  /** The test input byte by byte: "RuSt" then the message. */
  predicate IsTestInput(s: seq<u8>) {
    && |s| == 46
    && s[0] == 82
    && s[1] == 117
    && s[2] == 83
    && s[3] == 116
    && s[4] == 84
    && s[5] == 104
    && s[6] == 105
    && s[7] == 115
    && s[8] == 32
    && s[9] == 105
    && s[10] == 115
    && s[11] == 32
    && s[12] == 119
    && s[13] == 104
    && s[14] == 101
    && s[15] == 114
    && s[16] == 101
    && s[17] == 32
    && s[18] == 121
    && s[19] == 111
    && s[20] == 117
    && s[21] == 114
    && s[22] == 32
    && s[23] == 115
    && s[24] == 101
    && s[25] == 99
    && s[26] == 114
    && s[27] == 101
    && s[28] == 116
    && s[29] == 32
    && s[30] == 109
    && s[31] == 101
    && s[32] == 115
    && s[33] == 115
    && s[34] == 97
    && s[35] == 103
    && s[36] == 101
    && s[37] == 32
    && s[38] == 119
    && s[39] == 105
    && s[40] == 108
    && s[41] == 108
    && s[42] == 32
    && s[43] == 98
    && s[44] == 101
    && s[45] == 33
  }

  /** The register over bytes 0 to 7 of the test input. */
  lemma TestInputBytes0To7(s: seq<u8>)
    requires IsTestInput(s)
    ensures Register(0xFFFF_FFFF, s, 0) == Register(0xCA5E_E5F2, s, 8)
  {
    RegisterStep(s, 0, 82, 0xFFFF_FFFF, 0xA898_20AA);
    RegisterStep(s, 1, 117, 0xA898_20AA, 0x16C4_5765);
    RegisterStep(s, 2, 83, 0x16C4_5765, 0xCFAC_51CE);
    RegisterStep(s, 3, 116, 0xCFAC_51CE, 0x2B7B_F6C3);
    RegisterStep(s, 4, 84, 0x2B7B_F6C3, 0x6E40_7D11);
    RegisterStep(s, 5, 104, 0x6E40_7D11, 0x29B7_89E5);
    RegisterStep(s, 6, 105, 0x29B7_89E5, 0xE427_7882);
    RegisterStep(s, 7, 115, 0xE427_7882, 0xCA5E_E5F2);
  }

  /** The register over bytes 8 to 15 of the test input. */
  lemma TestInputBytes8To15(s: seq<u8>)
    requires IsTestInput(s)
    ensures Register(0xCA5E_E5F2, s, 8) == Register(0xC475_B53E, s, 16)
  {
    RegisterStep(s, 8, 32, 0xCA5E_E5F2, 0x6817_ED1D);
    RegisterStep(s, 9, 105, 0x6817_ED1D, 0x5700_A2C8);
    RegisterStep(s, 10, 115, 0x5700_A2C8, 0x5CE4_6AA6);
    RegisterStep(s, 11, 32, 0x5CE4_6AA6, 0x0487_C27F);
    RegisterStep(s, 12, 119, 0x0487_C27F, 0x0EDF_0FF0);
    RegisterStep(s, 13, 104, 0x0EDF_0FF0, 0xFEDA_C479);
    RegisterStep(s, 14, 101, 0xFEDA_C479, 0x14FF_868B);
    RegisterStep(s, 15, 114, 0x14FF_868B, 0xC475_B53E);
  }

  /** The register over bytes 16 to 23 of the test input. */
  lemma TestInputBytes16To23(s: seq<u8>)
    requires IsTestInput(s)
    ensures Register(0xC475_B53E, s, 16) == Register(0x9295_3043, s, 24)
  {
    RegisterStep(s, 16, 101, 0xC475_B53E, 0xFC7D_FDC9);
    RegisterStep(s, 17, 32, 0xFC7D_FDC9, 0xD92A_2721);
    RegisterStep(s, 18, 121, 0xD92A_2721, 0x6569_F3E1);
    RegisterStep(s, 19, 111, 0x6569_F3E1, 0x0A65_C7D4);
    RegisterStep(s, 20, 117, 0x0A65_C7D4, 0xA1DB_F6B9);
    RegisterStep(s, 21, 114, 0xA1DB_F6B9, 0x0C17_C0CE);
    RegisterStep(s, 22, 32, 0x0C17_C0CE, 0x47BE_D8BF);
    RegisterStep(s, 23, 115, 0x47BE_D8BF, 0x9295_3043);
  }

  /** The register over bytes 24 to 31 of the test input. */
  lemma TestInputBytes24To31(s: seq<u8>)
    requires IsTestInput(s)
    ensures Register(0x9295_3043, s, 24) == Register(0xEDEA_CE9A, s, 32)
  {
    RegisterStep(s, 24, 101, 0x9295_3043, 0xD29F_10CD);
    RegisterStep(s, 25, 99, 0xD29F_10CD, 0x31BC_11FF);
    RegisterStep(s, 26, 114, 0x31BC_11FF, 0x9338_438C);
    RegisterStep(s, 27, 101, 0x9338_438C, 0xD945_629F);
    RegisterStep(s, 28, 116, 0xD945_629F, 0x3701_7E92);
    RegisterStep(s, 29, 32, 0x3701_7E92, 0x2558_D3DE);
    RegisterStep(s, 30, 109, 0x2558_D3DE, 0x524D_BAE5);
    RegisterStep(s, 31, 101, 0x524D_BAE5, 0xEDEA_CE9A);
  }

  /** The register over bytes 32 to 39 of the test input. */
  lemma TestInputBytes32To39(s: seq<u8>)
    requires IsTestInput(s)
    ensures Register(0xEDEA_CE9A, s, 32) == Register(0x32B9_2B1E, s, 40)
  {
    RegisterStep(s, 32, 115, 0xEDEA_CE9A, 0xD93B_B012);
    RegisterStep(s, 33, 115, 0xD93B_B012, 0x3A6C_6A7E);
    RegisterStep(s, 34, 97, 0x3A6C_6A7E, 0x8D32_619F);
    RegisterStep(s, 35, 103, 0x8D32_619F, 0xB3EB_484F);
    RegisterStep(s, 36, 101, 0xB3EB_484F, 0xDB08_229E);
    RegisterStep(s, 37, 32, 0xDB08_229E, 0x2C02_96A9);
    RegisterStep(s, 38, 119, 0x2C02_96A9, 0x6147_FD45);
    RegisterStep(s, 39, 105, 0x6147_FD45, 0x32B9_2B1E);
  }

  /** The register over bytes 40 to 45 of the test input. */
  lemma TestInputBytes40To45(s: seq<u8>)
    requires IsTestInput(s)
    ensures Register(0x32B9_2B1E, s, 40) == 0x542E_27B1
  {
    RegisterStep(s, 40, 108, 0x32B9_2B1E, 0xBE39_A93B);
    RegisterStep(s, 41, 108, 0xBE39_A93B, 0xF5B1_FDFE);
    RegisterStep(s, 42, 32, 0xF5B1_FDFE, 0x619E_4E2E);
    RegisterStep(s, 43, 98, 0x619E_4E2E, 0x7F0B_93F5);
    RegisterStep(s, 44, 101, 0x7F0B_93F5, 0xF070_98D7);
    RegisterStep(s, 45, 33, 0xF070_98D7, 0x542E_27B1);
  }

  /** The CRC of the test input is 2882656334. */
  lemma TestInputChecksum(s: seq<u8>)
    requires IsTestInput(s)
    ensures Checksum(s) == 2882656334
  {
    TestInputBytes0To7(s);
    TestInputBytes8To15(s);
    TestInputBytes16To23(s);
    TestInputBytes24To31(s);
    TestInputBytes32To39(s);
    TestInputBytes40To45(s);
  }
}
